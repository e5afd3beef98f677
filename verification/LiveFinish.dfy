/** With cleanup everywhere, accepted calls alone finish every run that is not in a dead end. */
module LiveFinish {
  import opened Common
  import opened LiveState
  import opened LiveJournal
  import opened LiveRunner
  import opened LiveInvariant
  import opened LiveGuarded
  import opened LiveSafety
  import opened LiveOrder
  import opened LiveOrdered
  import opened LiveProgress
  import opened LiveRecovery
  import opened LiveCalls
  import opened LiveHistories
  import opened LiveDead
  import opened Traces

  ghost predicate Finishes(cfg: Config, v: View, reqs: seq<Request>) {
    RunsThrough(cfg, v, reqs) && EndOf(cfg, v, reqs).phase == Some(Complete)
  }

  /** Facts of every journal of a suite that cleans everywhere. */
  ghost predicate Whole(cfg: Config, v: View) {
    Inv(cfg, v) && Ordered(cfg, v)
  }

  lemma GoodCleans(cfg: Config)
    requires GoodConfig(cfg)
    ensures ValidConfig(cfg) && CleansBeforeLast(cfg) && HasActions(cfg)
  {
  }

  lemma LeadsIsWhole(cfg: Config, acts: seq<Act>, v: View)
    requires GoodConfig(cfg) && Leads(cfg, acts, v)
    ensures Whole(cfg, v)
  {
    GoodCleans(cfg);
    HistoryIsOrdered(cfg, acts);
  }

  lemma AfterIsWhole(cfg: Config, v: View, req: Request)
    requires GoodConfig(cfg) && Whole(cfg, v)
    ensures Whole(cfg, After(cfg, v, req))
  {
    GoodCleans(cfg);
    AdvanceGuarded(cfg, v, req);
    AdvanceInOrder(cfg, v, req);
    BothKept(cfg, v, Advance(cfg, v, req).out);
  }

  // ---- every other run can be finished ----

  lemma OneMoreCall(cfg: Config, v: View, req: Request, rest: seq<Request>)
    requires Accepted(cfg, v, req) && Finishes(cfg, After(cfg, v, req), rest)
    ensures Finishes(cfg, v, [req] + rest)
  {
    assert ([req] + rest)[1..] == rest;
  }

  /** Intents belong to closed variants and to the active one. */
  lemma WholeNoneAhead(cfg: Config, v: View)
    requires Located(cfg, v)
    ensures NoneAhead(cfg, v)
  {
  }

  /** A decided active variant in cleanup, with nothing open. */
  lemma CleanupIsSettled(cfg: Config, v: View, x: VariantId)
    requires GoodConfig(cfg) && Whole(cfg, v) && v.phase == Some(Cleanup)
    requires Unanswered(v) == {} && Active(cfg, v) == Some(x) && Decided(v, x)
    ensures Settled(cfg, v)
  {
    SerialHolds(cfg, v);
    WholeNoneAhead(cfg, v);
  }

  // ---- from cleanup ----

  /** Variants that are not closed have left no intents. */
  lemma NothingDeclaredAhead(cfg: Config, v: View)
    requires GoodConfig(cfg) && Sourced(cfg, v) && v.phase == Some(Cleanup) && Unanswered(v) == {}
    requires NewestUncleaned(v.cases, v.cleaned.Keys).None?
    ensures forall r :: r in Declared(v) ==> r.variant in v.cleaned
  {
    forall r | r in Declared(v) ensures r.variant in v.cleaned {
      assert r !in Unanswered(v);
    }
  }

  lemma SuiteReturns(cfg: Config, v: View)
    requires GoodConfig(cfg)
    ensures ContinueSuite(cfg, v, ReadyCall(cfg, None), Cleanup).outcome.Returned?
  {
    if Active(cfg, v).Some? {
      FirstActionReturns(cfg, v, ReadyCall(cfg, None), Active(cfg, v).value, Cleanup);
    }
  }

  lemma FromClosed(cfg: Config, v: View) returns (reqs: seq<Request>)
    requires GoodConfig(cfg) && Whole(cfg, v) && !Dead(cfg, v)
    requires v.phase == Some(Cleanup) && NewestUncleaned(v.cases, v.cleaned.Keys).None?
    ensures Finishes(cfg, v, reqs)
  {
    var req := ReadyCall(cfg, None);
    ResumedSuite(cfg, v);
    NothingDeclaredAhead(cfg, v);
    SuiteReturns(cfg, v);
    SuiteProgress(cfg, v, req, Remaining(cfg, cfg.variants, v.cleaned.Keys) + 1);
    FoldEmit(v, DoctorChecked(true, []), ContinueSuite(cfg, v, req, Cleanup));
    SerialHolds(cfg, v);
    CallKeepsSerial(cfg, v, req);
    var rest := RunCanFinish(cfg, After(cfg, v, req));
    OneMoreCall(cfg, v, req, rest);
    reqs := [req] + rest;
  }

  /** In cleanup, the decided variant that is not closed is the active one. */
  lemma AwaitedIsPlaced(cfg: Config, v: View, x: VariantId)
    requires Located(cfg, v) && NewestUncleaned(v.cases, v.cleaned.Keys) == Some(x)
    ensures Active(cfg, v) == Some(x) && Decided(v, x)
  {
    var c :| c in v.cases && c.variant == x;
  }

  lemma FromCleanup(cfg: Config, v: View) returns (reqs: seq<Request>)
    requires GoodConfig(cfg) && Whole(cfg, v) && !Dead(cfg, v) && v.phase == Some(Cleanup)
    ensures Finishes(cfg, v, reqs)
  {
    match NewestUncleaned(v.cases, v.cleaned.Keys)
    case None => reqs := FromClosed(cfg, v);
    case Some(x) =>
      AwaitedIsPlaced(cfg, v, x);
      CleanupIsSettled(cfg, v, x);
      reqs := RunCanFinish(cfg, v);
  }

  // ---- from an open action ----

  /** A decision in front of which an answer stands leads to cleanup. */
  lemma DecidedCall(
    cfg: Config, v: View, req: Request, answer: Event, x: VariantId, primary: PrimaryOutcome, phase: Phase, call: Call)
    requires GoodConfig(cfg) && v.phase == Some(phase) && Allowed(phase, Cleanup) && Active(cfg, v) == Some(x)
    requires (answer.ReceiptTaken? || answer.ReadbackTaken?) && Unanswered(v) <= {answer.ref}
    requires call == Emit(DoctorChecked(true, []),
                          Emit(answer, Decide(cfg, Step(v, answer), req, x, primary, phase)))
    ensures call.outcome.Returned?
    ensures var v' := Fold(Step, v, call.out);
            && v'.phase == Some(Cleanup) && v'.cleaned == v.cleaned
            && Unanswered(v') == {} && Active(cfg, v') == Some(x) && Decided(v', x)
  {
    var v1 := Step(v, answer);
    var decide := Decide(cfg, v1, req, x, primary, phase);
    FoldEmit(v, DoctorChecked(true, []), Emit(answer, decide));
    FoldEmit(v, answer, decide);
    DecideReturns(cfg, v1, req, x, primary, phase);
    DecideAfter(cfg, v1, req, x, primary, phase);
    var v' := Fold(Step, v1, decide.out);
    assert Declared(v') == Declared(v);
    assert Active(cfg, v') == Active(cfg, v);
  }

  /** The receipt `denied` for the open action leads to cleanup. */
  lemma DeniedCall(cfg: Config, v: View, ref: Ref)
    requires GoodConfig(cfg) && v.phase == Some(ActionRequired)
    requires Unanswered(v) == {ref} && Active(cfg, v) == Some(ref.variant)
    ensures var req := ReadyCall(cfg, Some(ActionReceipt(ref, Denied)));
            && Accepted(cfg, v, req) && |Advance(cfg, v, req).out| == 4
            && var v' := After(cfg, v, req);
               && v'.phase == Some(Cleanup) && v'.cleaned == v.cleaned
               && Unanswered(v') == {} && Active(cfg, v') == Some(ref.variant) && Decided(v', ref.variant)
  {
    var req := ReadyCall(cfg, Some(ActionReceipt(ref, Denied)));
    PendingIs(v, ref);
    PendingCallOut(cfg, v, ref, Denied, req);
    DecidedCall(cfg, v, req, ReceiptTaken(ref, Denied), ref.variant, PrimaryOutcome(Blocked, Some(HumanGateDenied)),
                ActionRequired, Advance(cfg, v, req));
  }

  /** The one open intent is the active variant's. */
  lemma OpenIsActive(cfg: Config, v: View, ref: Ref)
    requires GoodConfig(cfg) && Whole(cfg, v) && ref in Unanswered(v)
    ensures Unanswered(v) == {ref} && Active(cfg, v) == Some(ref.variant)
  {
    SerialHolds(cfg, v);
  }

  lemma FromPending(cfg: Config, v: View, ref: Ref) returns (reqs: seq<Request>)
    requires GoodConfig(cfg) && Whole(cfg, v) && v.phase == Some(ActionRequired) && ref in Unanswered(v)
    ensures Finishes(cfg, v, reqs)
  {
    var req := ReadyCall(cfg, Some(ActionReceipt(ref, Denied)));
    OpenIsActive(cfg, v, ref);
    DeniedCall(cfg, v, ref);
    AfterIsWhole(cfg, v, req);
    CleanupIsSettled(cfg, After(cfg, v, req), ref.variant);
    var rest := RunCanFinish(cfg, After(cfg, v, req));
    OneMoreCall(cfg, v, req, rest);
    reqs := [req] + rest;
  }

  // ---- from recovery ----

  /** A failed readback leads to cleanup. */
  lemma FailedCall(cfg: Config, v: View, ref: Ref)
    requires GoodConfig(cfg) && v.phase == Some(Recovery) && v.last.Some? && v.last.value.to == Recovery
    requires v.last.value.ref == Some(ref) && ref in Declared(v)
    requires Unanswered(v) <= {ref} && Active(cfg, v) == Some(ref.variant)
    ensures var req := ReadyCall(cfg, Some(ReadbackResult(ref, Failed)));
            && Accepted(cfg, v, req)
            && var v' := After(cfg, v, req);
               v'.phase == Some(Cleanup) && Unanswered(v') == {} && Active(cfg, v') == Some(ref.variant)
               && Decided(v', ref.variant)
  {
    var req := ReadyCall(cfg, Some(ReadbackResult(ref, Failed)));
    ReadbackOut(cfg, v, ref, Failed, req);
    DecidedCall(cfg, v, req, ReadbackTaken(ref, Failed), ref.variant, PrimaryOutcome(Fail, Some(AssertionFailed)),
                Recovery, Advance(cfg, v, req));
  }

  /** With the retry already declared, an absent readback shows it. */
  lemma AbsentCall(cfg: Config, v: View, ref: Ref)
    requires GoodConfig(cfg) && v.phase == Some(Recovery) && v.last.Some? && v.last.value.to == Recovery
    requires v.last.value.ref == Some(ref) && ref in Declared(v) && KnownRef(cfg, ref)
    requires Unanswered(v) == {ref.Retry()}
    ensures var req := ReadyCall(cfg, Some(ReadbackResult(ref, Absent)));
            && Accepted(cfg, v, req)
            && After(cfg, v, req).phase == Some(ActionRequired) && ref.Retry() in Unanswered(After(cfg, v, req))
  {
    var req := ReadyCall(cfg, Some(ReadbackResult(ref, Absent)));
    var taken := ReadbackTaken(ref, Absent);
    var expose := ExposeNextAction(cfg, req, ref.Retry(), Recovery);
    ReadbackOut(cfg, v, ref, Absent, req);
    ExposeReturns(cfg, req, ref.Retry(), Recovery);
    FoldEmit(v, DoctorChecked(true, []), Emit(taken, expose));
    FoldEmit(v, taken, expose);
    ExposeAfter(cfg, Step(v, taken), req, ref.Retry(), Recovery);
    assert ref.Retry() in Unanswered(v);
  }

  /** What a recovery waits for. */
  lemma RecoveryFacts(cfg: Config, v: View) returns (ref: Ref)
    requires GoodConfig(cfg) && Whole(cfg, v) && v.phase == Some(Recovery)
    ensures v.last.Some? && v.last.value.to == Recovery && v.last.value.ref == Some(ref)
    ensures ref in Declared(v) && KnownRef(cfg, ref) && Active(cfg, v) == Some(ref.variant)
    ensures Unanswered(v) <= {ref} || Unanswered(v) == {ref.Retry()}
  {
    ref := v.last.value.ref.value;
    DeclaredIsJustified(cfg, v, ref);
    SerialHolds(cfg, v);
  }

  lemma FromRecovery(cfg: Config, v: View) returns (reqs: seq<Request>)
    requires GoodConfig(cfg) && Whole(cfg, v) && v.phase == Some(Recovery)
    ensures Finishes(cfg, v, reqs)
  {
    var ref := RecoveryFacts(cfg, v);
    var rest: seq<Request>;
    var req;
    if Unanswered(v) <= {ref} {
      req := ReadyCall(cfg, Some(ReadbackResult(ref, Failed)));
      FailedCall(cfg, v, ref);
      AfterIsWhole(cfg, v, req);
      CleanupIsSettled(cfg, After(cfg, v, req), ref.variant);
      rest := RunCanFinish(cfg, After(cfg, v, req));
    } else {
      req := ReadyCall(cfg, Some(ReadbackResult(ref, Absent)));
      AbsentCall(cfg, v, ref);
      AfterIsWhole(cfg, v, req);
      rest := FromPending(cfg, After(cfg, v, req), ref.Retry());
    }
    OneMoreCall(cfg, v, req, rest);
    reqs := [req] + rest;
  }

  // ---- from a durable receipt ----

  /** What the next call finds when nothing is open. */
  lemma DurableFacts(cfg: Config, v: View) returns (ref: Ref)
    requires GoodConfig(cfg) && Whole(cfg, v) && v.phase == Some(ActionRequired) && Unanswered(v) == {}
    ensures Shows(v, ref) && ref in Declared(v) && ref in v.receipts
    ensures KnownRef(cfg, ref) && Active(cfg, v) == Some(ref.variant)
  {
    ref := v.last.value.ref.value;
    DeclaredIsJustified(cfg, v, ref);
    SerialHolds(cfg, v);
    assert ref !in Unanswered(v);
  }

  /** Where settling a receipt leads: on to the next action, or to a phase that can be finished. */
  ghost predicate Settling(cfg: Config, v: View, v': View, ref: Ref) {
    || v'.phase == Some(Recovery) || v'.phase == Some(Assertion)
    || (v'.phase == Some(Cleanup) && Unanswered(v') == {} && Active(cfg, v') == Some(ref.variant)
         && Decided(v', ref.variant))
    || (v'.phase == Some(ActionRequired) && v'.last.Some? && v'.last.value.ref == Some(ref.Following())
        && ref.index + 1 < ActionsOf(cfg, Some(ref.variant)))
  }

  lemma SettledCall(cfg: Config, v: View, ref: Ref, receipt: ReceiptOutcome)
    requires GoodConfig(cfg) && v.phase == Some(ActionRequired) && Unanswered(v) == {}
    requires KnownRef(cfg, ref) && Active(cfg, v) == Some(ref.variant)
    ensures var call := SettleReceipt(cfg, v, ReadyCall(cfg, None), ref, receipt);
            call.outcome.Returned? && Settling(cfg, v, Fold(Step, v, call.out), ref)
  {
    var x, req := ref.variant, ReadyCall(cfg, None);
    if receipt == AmbiguousReceipt {
      MoveAfter(v, Transition(ActionRequired, Recovery, Some(x), Some(ref), Some(AmbiguousMutation), None),
                Return(AwaitReadback(x, ref)));
    } else if PrimaryForReceiptOutcome(receipt).Some? {
      SettledDecision(cfg, v, x, PrimaryForReceiptOutcome(receipt).value);
    } else if ref.index + 1 < |cfg.manifest[x].actions| {
      ExposeReturns(cfg, req, ref.Following(), ActionRequired);
      ExposeAfter(cfg, v, req, ref.Following(), ActionRequired);
    } else {
      MoveAfter(v, Transition(ActionRequired, Assertion, Some(x), None, None, None),
                Return(AskAssertion(x, cfg.manifest[x].tokens)));
    }
  }

  lemma SettledDecision(cfg: Config, v: View, x: VariantId, primary: PrimaryOutcome)
    requires GoodConfig(cfg) && v.phase == Some(ActionRequired) && Unanswered(v) == {} && Active(cfg, v) == Some(x)
    ensures var call := Decide(cfg, v, ReadyCall(cfg, None), x, primary, ActionRequired);
            && call.outcome.Returned?
            && var v' := Fold(Step, v, call.out);
               v'.phase == Some(Cleanup) && Unanswered(v') == {} && Active(cfg, v') == Some(x) && Decided(v', x)
  {
    var req := ReadyCall(cfg, None);
    DecideReturns(cfg, v, req, x, primary, ActionRequired);
    DecideAfter(cfg, v, req, x, primary, ActionRequired);
    var v' := Fold(Step, v, Decide(cfg, v, req, x, primary, ActionRequired).out);
    assert Declared(v') == Declared(v);
    assert Active(cfg, v') == Active(cfg, v);
  }

  lemma AssertionIsSettled(cfg: Config, v: View)
    requires GoodConfig(cfg) && Whole(cfg, v) && (v.phase == Some(Assertion) || v.phase == Some(Waiting))
    ensures Settled(cfg, v)
  {
    SerialHolds(cfg, v);
    WholeNoneAhead(cfg, v);
  }

  /** Actions behind the shown one. */
  ghost function ActionsLeft(cfg: Config, v: View): int {
    if v.last.Some? && v.last.value.ref.Some? then
      ActionsOf(cfg, Some(v.last.value.ref.value.variant)) - v.last.value.ref.value.index
    else 0
  }

  lemma {:induction false} FromAction(cfg: Config, v: View) returns (reqs: seq<Request>)
    requires GoodConfig(cfg) && Whole(cfg, v) && v.phase == Some(ActionRequired)
    ensures Finishes(cfg, v, reqs)
    decreases if ActionsLeft(cfg, v) < 0 then 0 else ActionsLeft(cfg, v), 1
  {
    if Unanswered(v) == {} {
      var ref := DurableFacts(cfg, v);
      var req := ReadyCall(cfg, None);
      DurableOut(cfg, v, ref);
      SettledCall(cfg, v, ref, v.receipts[ref]);
      AfterIsWhole(cfg, v, req);
      var rest := FromSettling(cfg, v, After(cfg, v, req), ref);
      OneMoreCall(cfg, v, req, rest);
      reqs := [req] + rest;
    } else {
      var r :| r in Unanswered(v);
      reqs := FromPending(cfg, v, r);
    }
  }

  lemma {:induction false} FromSettling(cfg: Config, v: View, v': View, ref: Ref) returns (reqs: seq<Request>)
    requires GoodConfig(cfg) && Whole(cfg, v') && Settling(cfg, v, v', ref)
    requires v.last.Some? && v.last.value.ref == Some(ref)
    ensures Finishes(cfg, v', reqs)
    decreases if ActionsLeft(cfg, v) < 0 then 0 else ActionsLeft(cfg, v), 0
  {
    match v'.phase.value
    case Recovery => reqs := FromRecovery(cfg, v');
    case Assertion =>
      AssertionIsSettled(cfg, v');
      reqs := RunCanFinish(cfg, v');
    case Cleanup =>
      CleanupIsSettled(cfg, v', ref.variant);
      reqs := RunCanFinish(cfg, v');
    case ActionRequired => reqs := FromAction(cfg, v');
  }

  // ---- from preflight ----

  lemma PreflightIsSettled(cfg: Config, v: View)
    requires GoodConfig(cfg) && Whole(cfg, v) && v.phase == Some(Preflight) && v.intents == [] && Active(cfg, v).Some?
    ensures Settled(cfg, v)
  {
    SerialHolds(cfg, v);
    WholeNoneAhead(cfg, v);
  }

  lemma FromPreflight(cfg: Config, v: View) returns (reqs: seq<Request>)
    requires GoodConfig(cfg) && Whole(cfg, v) && v.phase == Some(Preflight) && Active(cfg, v).Some?
    ensures Finishes(cfg, v, reqs)
  {
    if v.intents == [] {
      PreflightIsSettled(cfg, v);
      reqs := RunCanFinish(cfg, v);
    } else {
      var req := ReadyCall(cfg, None);
      OpenPreflightCall(cfg, v);
      AfterIsWhole(cfg, v, req);
      var rest := FromRecovery(cfg, After(cfg, v, req));
      OneMoreCall(cfg, v, req, rest);
      reqs := [req] + rest;
    }
  }

  // ---- exactly ----

  lemma NoneActiveNoneOpen(cfg: Config, v: View)
    requires GoodConfig(cfg) && Whole(cfg, v)
    ensures Active(cfg, v).None? ==> Unanswered(v) == {}
  {
    SerialHolds(cfg, v);
  }

  lemma LiveFinishes(cfg: Config, v: View) returns (reqs: seq<Request>)
    requires GoodConfig(cfg) && Whole(cfg, v) && !Dead(cfg, v)
    ensures Finishes(cfg, v, reqs)
  {
    match v.phase.value
    case Complete => reqs := [];
    case Preflight =>
      NoneActiveNoneOpen(cfg, v);
      reqs := FromPreflight(cfg, v);
    case ActionRequired => reqs := FromAction(cfg, v);
    case Recovery => reqs := FromRecovery(cfg, v);
    case Cleanup => reqs := FromCleanup(cfg, v);
    case _ =>
      AssertionIsSettled(cfg, v);
      reqs := RunCanFinish(cfg, v);
  }

  /**
   * From a journal that any history of calls, failed doctors and crashes left, some sequence of accepted
   * calls completes the run if and only if it is in none of the three dead ends.
   */
  lemma FinishesExactly(cfg: Config, j: Journal)
    requires GoodConfig(cfg) && Reachable(cfg, j)
    ensures (exists reqs :: Finishes(cfg, ViewOf(j), reqs)) <==> !Dead(cfg, ViewOf(j))
  {
    var v := ViewOf(j);
    var acts :| History(cfg, acts) == Some(j);
    LeadsIsWhole(cfg, acts, v);
    if Dead(cfg, v) {
      forall reqs ensures !Finishes(cfg, v, reqs) {
        DeadNeverFinishes(cfg, v, reqs);
      }
    } else {
      var reqs := LiveFinishes(cfg, v);
    }
  }
}
