/**
 * `advanceLiveRun` as a function: what one call appends to a journal and what it
 * returns. LiveRun.dfy holds the object that appends step by step.
 */
module LiveRunner {
  import opened Common
  import opened LiveState
  import opened LiveJournal

  datatype Action = Action(id: string, needsCleanup: bool)
  datatype Variant = Variant(actions: seq<Action>, tokens: seq<string>)

  /** The manifest and the header's variants in run order. */
  datatype Config = Config(manifest: map<VariantId, Variant>, variants: seq<VariantId>)

  datatype Signal =
    | ActionReceipt(ref: Ref, receipt: ReceiptOutcome)
    | ReadbackResult(ref: Ref, readback: ReadbackOutcome)
    | AssertionResult(variant: VariantId, primary: PrimaryOutcome)

  datatype CleanupProgress = CleanupPending | Postflight(pass: bool)

  /**
   * One call. `admitted` stands for the checks made before anything is appended
   * (timestamp, suite policy, header and doctor identity); `bindings` are the
   * variants the target binds; `notBefore` and `cleanup` are what the two
   * dependencies answer.
   */
  datatype Request = Request(
    admitted: bool,
    ready: bool,
    codes: seq<string>,
    bindings: set<VariantId>,
    signal: Option<Signal>,
    now: int,
    notBefore: map<VariantId, int>,
    cleanup: CleanupProgress)

  datatype Record =
    | AskAction(variant: VariantId, ref: Ref, actionId: string)
    | AwaitReadback(variant: VariantId, ref: Ref)
    | AwaitWindow(variant: VariantId, notBefore: int)
    | AwaitCleanup(variant: VariantId, reason: Option<Reason>)
    | AskAssertion(variant: VariantId, tokens: seq<string>)
    | Finished(report: RunReport)

  datatype Error = NotAdmitted | InvalidTransition | ActionReplay | InvalidSignal | SelectionDrift

  datatype Outcome = Returned(record: Record) | Thrown(error: Error)

  /** The appends of a call, in order, and how it ended. */
  datatype Call = Call(out: seq<Event>, outcome: Outcome)

  function Emit(e: Event, rest: Call): Call {
    Call([e] + rest.out, rest.outcome)
  }

  /** `appendTransition`: a transition outside the table throws instead of being written. */
  function Move(t: Transition, rest: Call): Call {
    if Allowed(t.from, t.to) then Emit(Moved(t), rest) else Call([], Thrown(InvalidTransition))
  }

  function Return(record: Record): Call {
    Call([], Returned(record))
  }

  function Throw(error: Error): Call {
    Call([], Thrown(error))
  }

  function Report(cfg: Config, v: View): RunReport {
    AggregateRunReport(cfg.variants, Outcomes(v.cases, v.cleaned))
  }

  /** `activeVariantId`. */
  function Active(cfg: Config, v: View): Option<VariantId> {
    FirstOutside(cfg.variants, v.cleaned.Keys)
  }

  predicate NeedsCleanup(variant: Variant) {
    exists a :: a in variant.actions && a.needsCleanup
  }

  function DoctorFailure(codes: seq<string>): PrimaryOutcome {
    if codes != [] && codes[0] in {"missing_actor", "invalid_target_overlay", "unavailable_observer"} then
      PrimaryOutcome(Blocked, Some(FixtureMissing))
    else if codes != [] && codes[0] in {"wrong_workspace", "live_lock", "stale_lock"} then
      PrimaryOutcome(Blocked, Some(AuthorityDenied))
    else
      PrimaryOutcome(Blocked, Some(TargetDrift))
  }

  function ShowAction(cfg: Config, req: Request, intent: Intent): Call {
    var ref := intent.ref;
    if ref.variant !in cfg.manifest
       || ref.index >= |cfg.manifest[ref.variant].actions|
       || cfg.manifest[ref.variant].actions[ref.index].id != intent.actionId
       || ref.variant !in req.bindings
    then Throw(SelectionDrift)
    else Return(AskAction(ref.variant, ref, intent.actionId))
  }

  function ExposeNextAction(cfg: Config, req: Request, ref: Ref, phase: Phase): Call {
    if ref.variant !in cfg.manifest || ref.index >= |cfg.manifest[ref.variant].actions| then Throw(SelectionDrift)
    else
      var intent := Intent(ref, cfg.manifest[ref.variant].actions[ref.index].id);
      Emit(IntentDeclared(intent),
           Move(Transition(phase, ActionRequired, Some(ref.variant), Some(ref), None, None),
                ShowAction(cfg, req, intent)))
  }

  function FinishRun(cfg: Config, v: View, phase: Phase): Call {
    var report := Report(cfg, v);
    Move(Transition(phase, Complete, None, None, None, None),
         Emit(RunDecided(report.aggregate), Return(Finished(report))))
  }

  /** `v` is the view after what the call has already appended. */
  function ContinueSuite(cfg: Config, v: View, req: Request, phase: Phase): Call {
    match Active(cfg, v)
    case Some(variant) => ExposeNextAction(cfg, req, Ref(variant, 0, 1), phase)
    case None => FinishRun(cfg, v, phase)
  }

  function EnterCleanupOrContinue(
    cfg: Config, v: View, req: Request, variant: VariantId, primary: PrimaryOutcome, phase: Phase): Call
  {
    if variant !in cfg.manifest then Throw(SelectionDrift)
    else if !NeedsCleanup(cfg.manifest[variant]) then
      var done := CleanupDone(variant, NotRequired);
      Emit(done, ContinueSuite(cfg, Step(v, done), req, phase))
    else
      Move(Transition(phase, Cleanup, Some(variant), None, primary.reason, None),
           Return(AwaitCleanup(variant, primary.reason)))
  }

  /** Appends the case result and leaves the variant. */
  function Decide(
    cfg: Config, v: View, req: Request, variant: VariantId, primary: PrimaryOutcome, phase: Phase): Call
  {
    var decided := CaseDecided(variant, primary);
    Emit(decided, EnterCleanupOrContinue(cfg, Step(v, decided), req, variant, primary, phase))
  }

  function EnterAssertion(cfg: Config, variant: VariantId, phase: Phase): Call {
    Move(Transition(phase, Assertion, Some(variant), None, None, None),
         if variant in cfg.manifest then Return(AskAssertion(variant, cfg.manifest[variant].tokens))
         else Throw(SelectionDrift))
  }

  function EnterReadbackRecovery(ref: Ref, phase: Phase): Call {
    Move(Transition(phase, Recovery, Some(ref.variant), Some(ref), Some(AmbiguousMutation), None),
         Return(AwaitReadback(ref.variant, ref)))
  }

  function AfterCompletedAction(cfg: Config, req: Request, ref: Ref, phase: Phase): Call {
    if ref.variant !in cfg.manifest then Throw(SelectionDrift)
    else if ref.index + 1 < |cfg.manifest[ref.variant].actions| then
      ExposeNextAction(cfg, req, ref.Following(), phase)
    else if ref.variant in req.notBefore && req.now < req.notBefore[ref.variant] then
      Move(Transition(phase, Waiting, Some(ref.variant), None, None, Some(req.notBefore[ref.variant])),
           Return(AwaitWindow(ref.variant, req.notBefore[ref.variant])))
    else EnterAssertion(cfg, ref.variant, phase)
  }

  /** What follows a durable receipt; `v` already counts it. */
  function SettleReceipt(cfg: Config, v: View, req: Request, ref: Ref, receipt: ReceiptOutcome): Call {
    if receipt == AmbiguousReceipt then EnterReadbackRecovery(ref, ActionRequired)
    else
      match PrimaryForReceiptOutcome(receipt)
      case Some(primary) => Decide(cfg, v, req, ref.variant, primary, ActionRequired)
      case None => AfterCompletedAction(cfg, req, ref, ActionRequired)
  }

  function ContinuePendingAction(cfg: Config, v: View, req: Request, intent: Intent): Call {
    match req.signal
    case None =>
      Move(Transition(ActionRequired, ActionRequired, Some(intent.ref.variant), Some(intent.ref), None, None),
           ShowAction(cfg, req, intent))
    case Some(ActionReceipt(ref, receipt)) =>
      if ref != intent.ref then Throw(InvalidSignal)
      else
        var taken := ReceiptTaken(ref, receipt);
        Emit(taken, SettleReceipt(cfg, Step(v, taken), req, ref, receipt))
    case Some(_) => Throw(InvalidSignal)
  }

  /** What follows a durable readback; `v` already counts it. */
  function AfterReadback(cfg: Config, v: View, req: Request, ref: Ref, readback: ReadbackOutcome): Call {
    match readback
    case Absent => ExposeNextAction(cfg, req, ref.Retry(), Recovery)
    case Failed => Decide(cfg, v, req, ref.variant, PrimaryOutcome(Fail, Some(AssertionFailed)), Recovery)
    case _ => Decide(cfg, v, req, ref.variant, PrimaryOutcome(Ambiguous, Some(AmbiguousMutation)), Recovery)
  }

  function ContinueRecovery(cfg: Config, v: View, req: Request, ref: Ref): Call {
    match req.signal
    case None => EnterReadbackRecovery(ref, Recovery)
    case Some(ReadbackResult(target, readback)) =>
      if target != ref then Throw(InvalidSignal)
      else
        var taken := ReadbackTaken(ref, readback);
        Emit(taken, AfterReadback(cfg, Step(v, taken), req, ref, readback))
    case Some(_) => Throw(InvalidSignal)
  }

  /** `findDurableActionReceipt` and `resumeDurableActionReceipt`. */
  function ResumeDurableReceipt(cfg: Config, v: View, req: Request): Call {
    if v.last.None? || v.last.value.to != ActionRequired || v.last.value.ref.None? then Throw(InvalidTransition)
    else
      var ref := v.last.value.ref.value;
      if NewestIntent(v.intents, ref).None? || ref !in v.receipts then Throw(InvalidTransition)
      else if req.signal.Some? then Throw(ActionReplay)
      else SettleReceipt(cfg, v, req, ref, v.receipts[ref])
  }

  function ContinueObservationWait(cfg: Config, v: View, req: Request): Call {
    if req.signal.Some? then Throw(InvalidSignal)
    else if v.last.None? || v.last.value.notBefore.None? || v.last.value.variant.None? then Throw(InvalidTransition)
    else
      var variant, notBefore := v.last.value.variant.value, v.last.value.notBefore.value;
      if req.now < notBefore then
        Move(Transition(Waiting, Waiting, Some(variant), None, None, Some(notBefore)),
             Return(AwaitWindow(variant, notBefore)))
      else EnterAssertion(cfg, variant, Waiting)
  }

  function RecordAssertion(cfg: Config, v: View, req: Request): Call {
    if req.signal.Some? && req.signal.value.ActionReceipt? then Throw(ActionReplay)
    else if v.last.None? || v.last.value.variant.None? || req.signal.None?
            || !req.signal.value.AssertionResult? || req.signal.value.variant != v.last.value.variant.value
    then Throw(InvalidSignal)
    else
      var AssertionResult(variant, primary) := req.signal.value;
      var made := AssertionMade(variant, primary);
      Emit(made, Decide(cfg, Step(v, made), req, variant, primary, Assertion))
  }

  function RecordCleanup(cfg: Config, v: View, req: Request): Call {
    match NewestUncleaned(v.cases, v.cleaned.Keys)
    case None =>
      if v.last.Some? && v.last.value.variant.Some? && v.last.value.variant.value in v.cleaned
      then ContinueSuite(cfg, v, req, Cleanup)
      else Throw(InvalidSignal)
    case Some(variant) =>
      if req.signal.Some? then Throw(InvalidSignal)
      else
        match req.cleanup
        case CleanupPending => Return(AwaitCleanup(variant, None))
        case Postflight(pass) =>
          var done := CleanupDone(variant, if pass then CleanupPassed else CleanupFailed);
          Emit(done, ContinueSuite(cfg, Step(v, done), req, Cleanup))
  }

  /** `blockNewRun`: every variant is decided and closed before the run ends. */
  function BlockFrom(cfg: Config, v: View, primary: PrimaryOutcome, variants: seq<VariantId>): Call
    decreases |variants|
  {
    if variants == [] then FinishRun(cfg, v, Preflight)
    else
      var decided, done := CaseDecided(variants[0], primary), CleanupDone(variants[0], NotRequired);
      Emit(decided, Emit(done, BlockFrom(cfg, Step(Step(v, decided), done), primary, variants[1..])))
  }

  function StopForDoctorFailure(cfg: Config, v: View, req: Request, phase: Phase): Call {
    match Active(cfg, v)
    case None => Throw(InvalidSignal)
    case Some(variant) =>
      var stop := Move(Transition(phase, Cleanup, Some(variant), None, Some(TargetDrift), None),
                       Return(AwaitCleanup(variant, Some(TargetDrift))));
      if phase == Cleanup then stop
      else Emit(CaseDecided(variant, DoctorFailure(req.codes)), stop)
  }

  function ResumeTerminalRun(cfg: Config, v: View): Call {
    var report := Report(cfg, v);
    match v.result
    case Some(aggregate) =>
      if aggregate == report.aggregate then Return(Finished(report)) else Throw(InvalidTransition)
    case None => Emit(RunDecided(report.aggregate), Return(Finished(report)))
  }

  /** The rest of a resumed call once a ready doctor is recorded. */
  function Dispatch(cfg: Config, v: View, req: Request, phase: Phase): Call {
    var outstanding := NewestUnanswered(v.intents, v.answered);
    if outstanding.Some? && phase != ActionRequired && phase != Recovery then
      EnterReadbackRecovery(outstanding.value.ref, phase)
    else
      match phase
      case Recovery =>
        if v.last.None? || v.last.value.to != Recovery || v.last.value.ref.None?
           || NewestIntent(v.intents, v.last.value.ref.value).None?
        then Throw(InvalidTransition)
        else ContinueRecovery(cfg, v, req, v.last.value.ref.value)
      case ActionRequired =>
        if outstanding.None? then ResumeDurableReceipt(cfg, v, req)
        else ContinuePendingAction(cfg, v, req, outstanding.value)
      case Waiting => ContinueObservationWait(cfg, v, req)
      case Assertion => RecordAssertion(cfg, v, req)
      case Cleanup => RecordCleanup(cfg, v, req)
      case Preflight =>
        if req.signal.Some? then Throw(InvalidSignal)
        else
          (match Active(cfg, v)
           case None => Throw(InvalidTransition)
           case Some(variant) => ExposeNextAction(cfg, req, Ref(variant, 0, 1), Preflight))
      case Complete => Throw(InvalidTransition)
  }

  /** A call on an existing journal. */
  function Advance(cfg: Config, v: View, req: Request): Call {
    if !req.admitted then Throw(NotAdmitted)
    else if v.phase.None? then Throw(InvalidTransition)
    else if v.phase.value == Complete then ResumeTerminalRun(cfg, v)
    else
      Emit(DoctorChecked(req.ready, req.codes), AfterDoctor(cfg, v, req, v.phase.value))
  }

  function AfterDoctor(cfg: Config, v: View, req: Request, phase: Phase): Call {
    if req.ready then Dispatch(cfg, v, req, phase) else StopForDoctorFailure(cfg, v, req, phase)
  }

  /** A call that finds no journal; its appends start right after the header. */
  function Begin(cfg: Config, req: Request): Call {
    if !req.admitted then Throw(NotAdmitted)
    else if req.signal.Some? then Throw(InvalidSignal)
    else
      Emit(DoctorChecked(req.ready, req.codes),
           if !req.ready then BlockFrom(cfg, START, DoctorFailure(req.codes), cfg.variants)
           else if cfg.variants == [] then Throw(SelectionDrift)
           else ExposeNextAction(cfg, req, Ref(cfg.variants[0], 0, 1), Preflight))
  }
}
