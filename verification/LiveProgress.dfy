/**
 * A run with a ready doctor and no crash, all of whose variants need cleanup, ends: every accepted
 * call that is not idle and does not retry lowers the work left, and while work is left such a
 * call exists.
 */
module LiveProgress {
  import opened Common
  import opened LiveState
  import opened LiveJournal
  import opened LiveRunner
  import opened LiveInvariant
  import opened LiveGuarded
  import opened LiveOrder
  import opened LiveOrdered
  import opened Traces

  // ---- the work left ----

  function Cost(cfg: Config, x: VariantId): nat {
    4 + 2 * if x in cfg.manifest then |cfg.manifest[x].actions| else 0
  }

  /** The cost of the variants in `variants` that are not closed. */
  function Remaining(cfg: Config, variants: seq<VariantId>, cleaned: set<VariantId>): nat {
    if variants == [] then 0
    else (if variants[0] in cleaned then 0 else Cost(cfg, variants[0])) + Remaining(cfg, variants[1..], cleaned)
  }

  lemma {:induction false} RemainingDrops(cfg: Config, variants: seq<VariantId>, cleaned: set<VariantId>, x: VariantId)
    requires Distinct(variants) && x !in cleaned
    ensures Remaining(cfg, variants, cleaned + {x})
            == Remaining(cfg, variants, cleaned) - if x in variants then Cost(cfg, x) else 0
  {
    if variants != [] {
      RemainingDrops(cfg, variants[1..], cleaned, x);
    }
  }

  lemma {:induction false} ActiveRemains(cfg: Config, variants: seq<VariantId>, cleaned: set<VariantId>)
    requires FirstOutside(variants, cleaned).Some?
    ensures Remaining(cfg, variants, cleaned) >= Cost(cfg, FirstOutside(variants, cleaned).value)
  {
    if variants[0] in cleaned {
      ActiveRemains(cfg, variants[1..], cleaned);
    }
  }

  function ActionsOf(cfg: Config, variant: Option<VariantId>): nat {
    if variant.Some? && variant.value in cfg.manifest then |cfg.manifest[variant.value].actions| else 0
  }

  /** Variants left, then actions left in the active one, then phases left in the action. */
  ghost function Work(cfg: Config, v: View): int {
    var rest, n := Remaining(cfg, cfg.variants, v.cleaned.Keys), ActionsOf(cfg, Active(cfg, v));
    var index := if v.last.Some? && v.last.value.ref.Some? then v.last.value.ref.value.index else 0;
    match v.phase
    case None => 0
    case Some(Preflight) => rest + 1
    case Some(ActionRequired) => rest - 2 * index
    case Some(Recovery) => rest - 2 * index - 1
    case Some(Waiting) => rest - 2 * n
    case Some(Assertion) => rest - 2 * n - 1
    case Some(Cleanup) => rest - 2 * n - 2
    case Some(Complete) => 0
  }

  // ---- views between calls ----

  /** No intent lies ahead of `ref` in the active variant, and other intents belong to closed variants. */
  ghost predicate Foremost(cfg: Config, v: View, ref: Ref) {
    forall r :: r in Declared(v) ==>
      r.variant in v.cleaned || (r.variant == ref.variant && (r.index < ref.index
                                 || (r.index == ref.index && r.attempt <= ref.attempt)))
  }

  /** Only closed variants and the active one have intents. */
  ghost predicate NoneAhead(cfg: Config, v: View) {
    forall r :: r in Declared(v) ==> r.variant in v.cleaned || Some(r.variant) == Active(cfg, v)
  }

  /** Between calls, the shown action is the one pending, and cleanup has a decided variant to close. */
  ghost predicate AtRest(cfg: Config, v: View) {
    && NoneAhead(cfg, v)
    && (v.phase == Some(Preflight) ==> v.intents == [] && Active(cfg, v).Some?)
    && (v.phase == Some(ActionRequired) ==>
          && v.last.Some? && v.last.value.ref.Some?
          && Unanswered(v) == {v.last.value.ref.value} && Foremost(cfg, v, v.last.value.ref.value))
    && (v.phase == Some(Recovery) ==>
          && v.last.Some? && v.last.value.ref.Some?
          && Unanswered(v) <= {v.last.value.ref.value} && Foremost(cfg, v, v.last.value.ref.value))
    && (v.phase == Some(Cleanup) ==>
          Unanswered(v) == {} && Active(cfg, v).Some? && Decided(v, Active(cfg, v).value))
  }

  /** A view that uninterrupted calls with a ready doctor leave behind. */
  ghost predicate Settled(cfg: Config, v: View) {
    Serial(cfg, v) && AtRest(cfg, v)
  }

  ghost predicate GoodConfig(cfg: Config) {
    ValidConfig(cfg) && AlwaysCleans(cfg) && cfg.variants != []
  }

  lemma StartIsSettled(cfg: Config)
    requires GoodConfig(cfg)
    ensures Settled(cfg, START) && Active(cfg, START) == Some(cfg.variants[0])
  {
    StartHasInv(cfg);
    StartIsOrdered(cfg);
    SerialHolds(cfg, START);
    assert cfg.variants[..0] == [];
    FirstOutsidePrefix(cfg.variants, 0);
    assert START.cleaned.Keys == Elements(cfg.variants[..0]);
  }

  /** With a ready doctor, creating the journal and finding it just created lead to the same call. */
  lemma BeginIsAdvance(cfg: Config, req: Request)
    requires GoodConfig(cfg) && req.admitted && req.ready && req.signal == None
    ensures Begin(cfg, req) == Advance(cfg, START, req)
  {
    StartIsSettled(cfg);
  }

  lemma WorkIsNatural(cfg: Config, v: View)
    requires GoodConfig(cfg) && Settled(cfg, v)
    ensures Work(cfg, v) >= 0 && (Work(cfg, v) == 0 <==> v.phase == Some(Complete))
  {
    if v.phase != Some(Complete) {
      if v.phase == Some(ActionRequired) || v.phase == Some(Recovery) {
        DeclaredIsJustified(cfg, v, v.last.value.ref.value);
      } else if v.phase == Some(Waiting) || v.phase == Some(Assertion) {
        DoneIsDeclared(cfg, v, v.last.value.variant.value);
      }
      assert Active(cfg, v).Some?;
      ActiveRemains(cfg, cfg.variants, v.cleaned.Keys);
    }
  }

  // ---- kinds of calls ----

  datatype Kind = Idle | Retrying | Productive

  /** Idle calls ask again or wait; a retrying call reports that the attempt left nothing. */
  ghost function KindOf(v: View, req: Request): Kind {
    match v.phase
    case Some(ActionRequired) => if req.signal.None? then Idle else Productive
    case Some(Recovery) =>
      if req.signal.None? then Idle
      else if req.signal.value.ReadbackResult? && req.signal.value.readback == Absent then Retrying
      else Productive
    case Some(Waiting) =>
      if v.last.Some? && v.last.value.notBefore.Some? && req.now < v.last.value.notBefore.value then Idle
      else Productive
    case Some(Cleanup) => if req.cleanup == CleanupPending then Idle else Productive
    case Some(Complete) => Idle
    case _ => Productive
  }

  ghost function After(cfg: Config, v: View, req: Request): View {
    Fold(Step, v, Advance(cfg, v, req).out)
  }

  ghost predicate Accepted(cfg: Config, v: View, req: Request) {
    req.admitted && req.ready && Advance(cfg, v, req).outcome.Returned?
  }

  /** What one accepted call does to the work left. */
  ghost predicate Progress(cfg: Config, v: View, v': View, kind: Kind) {
    && AtRest(cfg, v')
    && match kind
       case Idle => Work(cfg, v') == Work(cfg, v)
       case Retrying => Work(cfg, v') == Work(cfg, v) + 1
       case Productive => Work(cfg, v') < Work(cfg, v)
  }

  lemma FoldEmit(v: View, e: Event, rest: Call)
    ensures Fold(Step, v, Emit(e, rest).out) == Fold(Step, Step(v, e), rest.out)
  {
    FoldSnoc(Step, v, [], e);
    FoldAppend(Step, v, [e], rest.out);
    assert [] + [e] == [e];
  }

  lemma FoldNothing(v: View)
    ensures Fold(Step, v, []) == v
  {
  }

  // ---- what the tails of a call leave behind ----

  /** `ExposeNextAction` for a known action: one more intent, shown, and nothing else. */
  lemma ExposeAfter(cfg: Config, v: View, req: Request, ref: Ref, phase: Phase)
    requires v.phase == Some(phase) && Allowed(phase, ActionRequired)
    requires ref.variant in cfg.manifest && ref.index < |cfg.manifest[ref.variant].actions|
    ensures var v' := Fold(Step, v, ExposeNextAction(cfg, req, ref, phase).out);
            && v'.phase == Some(ActionRequired) && v'.last.Some? && v'.last.value.ref == Some(ref)
            && v'.answered == v.answered && v'.receipts == v.receipts && v'.cleaned == v.cleaned
            && Declared(v') == Declared(v) + {ref}
  {
    var intent := Intent(ref, cfg.manifest[ref.variant].actions[ref.index].id);
    var t := Transition(phase, ActionRequired, Some(ref.variant), Some(ref), None, None);
    var show := ShowAction(cfg, req, intent);
    var v1 := Step(v, IntentDeclared(intent));
    DeclaredStep(v, IntentDeclared(intent));
    FoldEmit(v, IntentDeclared(intent), Move(t, show));
    FoldEmit(v1, Moved(t), show);
    FoldNothing(Step(v1, Moved(t)));
    DeclaredStep(v1, Moved(t));
  }

  /** A transition that ends the call. */
  lemma MoveAfter(v: View, t: Transition, rest: Call)
    requires v.phase == Some(t.from) && rest.out == [] && Move(t, rest).outcome.Returned?
    ensures Fold(Step, v, Move(t, rest).out) == v.(phase := Some(t.to), last := Some(t))
  {
    FoldEmit(v, Moved(t), rest);
    FoldNothing(Step(v, Moved(t)));
  }

  lemma FinishTail(v: View, phase: Phase, aggregate: Aggregate)
    requires v.phase == Some(phase) && Allowed(phase, Complete)
    ensures var t := Transition(phase, Complete, None, None, None, None);
            Fold(Step, v, [Moved(t), RunDecided(aggregate)])
            == v.(phase := Some(Complete), last := Some(t), result := Some(aggregate))
  {
    var t := Transition(phase, Complete, None, None, None, None);
    FoldSnoc(Step, v, [], Moved(t));
    FoldSnoc(Step, v, [Moved(t)], RunDecided(aggregate));
    assert [] + [Moved(t)] == [Moved(t)] && [Moved(t)] + [RunDecided(aggregate)] == [Moved(t), RunDecided(aggregate)];
  }

  lemma FinishAfter(cfg: Config, v: View, phase: Phase)
    requires v.phase == Some(phase) && FinishRun(cfg, v, phase).outcome.Returned?
    ensures var v' := Fold(Step, v, FinishRun(cfg, v, phase).out);
            v'.phase == Some(Complete) && v'.intents == v.intents && v'.cleaned == v.cleaned
  {
    FinishTail(v, phase, Report(cfg, v).aggregate);
  }

  lemma DecideAfter(cfg: Config, v: View, req: Request, variant: VariantId, primary: PrimaryOutcome, phase: Phase)
    requires v.phase == Some(phase) && variant in cfg.manifest && NeedsCleanup(cfg.manifest[variant])
    requires Allowed(phase, Cleanup)
    ensures var v' := Fold(Step, v, Decide(cfg, v, req, variant, primary, phase).out);
            && v'.phase == Some(Cleanup) && Decided(v', variant)
            && v'.intents == v.intents && v'.answered == v.answered && v'.cleaned == v.cleaned
  {
    var e := CaseDecided(variant, primary);
    var t := Transition(phase, Cleanup, Some(variant), None, primary.reason, None);
    FoldEmit(v, e, Move(t, Return(AwaitCleanup(variant, primary.reason))));
    MoveAfter(Step(v, e), t, Return(AwaitCleanup(variant, primary.reason)));
    assert CaseRow(variant, primary) in Step(v, e).cases;
  }

  // ---- one call, phase by phase; `v` stands after the doctor record ----

  ghost function Rest(cfg: Config, v: View, req: Request): Call
    requires v.phase.Some?
  {
    Dispatch(cfg, v, req, v.phase.value)
  }

  /** Showing a new foremost action of the active variant. */
  lemma ShownIsSettled(cfg: Config, v: View, v': View, ref: Ref)
    requires v'.phase == Some(ActionRequired) && v'.last.Some? && v'.last.value.ref == Some(ref)
    requires v'.answered == v.answered && v'.cleaned == v.cleaned && Declared(v') == Declared(v) + {ref}
    requires Unanswered(v) == {} && Some(ref.variant) == Active(cfg, v) && ref !in v.answered
    requires Foremost(cfg, v, ref)
    ensures AtRest(cfg, v')
    ensures Work(cfg, v') == Remaining(cfg, cfg.variants, v.cleaned.Keys) - 2 * ref.index
  {
    assert Unanswered(v') == {ref};
    assert Active(cfg, v') == Active(cfg, v);
  }

  lemma PreflightProgress(cfg: Config, v: View, req: Request)
    requires GoodConfig(cfg) && Settled(cfg, v) && v.phase == Some(Preflight)
    requires Rest(cfg, v, req).outcome.Returned?
    ensures Progress(cfg, v, Fold(Step, v, Rest(cfg, v, req).out), Productive)
  {
    var ref := Ref(Active(cfg, v).value, 0, 1);
    ExposeAfter(cfg, v, req, ref, Preflight);
    assert v.answered == {} && Unanswered(v) == {};
    ShownIsSettled(cfg, v, Fold(Step, v, Rest(cfg, v, req).out), ref);
  }

  /** The view right after an answer, before the call goes on. */
  ghost predicate Answered(cfg: Config, v: View, ref: Ref) {
    && Serial(cfg, v) && v.last.Some? && v.last.value.ref == Some(ref)
    && Unanswered(v) == {} && NoneAhead(cfg, v) && Foremost(cfg, v, ref)
    && Some(ref.variant) == Active(cfg, v) && KnownRef(cfg, ref)
  }

  lemma NextActionProgress(cfg: Config, v: View, req: Request, ref: Ref, next: Ref, phase: Phase)
    requires GoodConfig(cfg) && Answered(cfg, v, ref) && v.phase == Some(phase)
    requires next == ref.Following() || next == ref.Retry()
    requires ExposeNextAction(cfg, req, next, phase).outcome.Returned?
    ensures var v' := Fold(Step, v, ExposeNextAction(cfg, req, next, phase).out);
            AtRest(cfg, v') && Work(cfg, v') == Remaining(cfg, cfg.variants, v.cleaned.Keys) - 2 * next.index
  {
    ExposeAfter(cfg, v, req, next, phase);
    assert next !in Declared(v);
    ShownIsSettled(cfg, v, Fold(Step, v, ExposeNextAction(cfg, req, next, phase).out), next);
  }

  lemma DecisionProgress(
    cfg: Config, v: View, req: Request, variant: VariantId, primary: PrimaryOutcome, phase: Phase)
    requires GoodConfig(cfg) && v.phase == Some(phase) && Unanswered(v) == {} && NoneAhead(cfg, v)
    requires Some(variant) == Active(cfg, v) && Allowed(phase, Cleanup)
    ensures var v' := Fold(Step, v, Decide(cfg, v, req, variant, primary, phase).out);
            && AtRest(cfg, v')
            && Work(cfg, v') == Remaining(cfg, cfg.variants, v.cleaned.Keys) - 2 * ActionsOf(cfg, Some(variant)) - 2
  {
    DecideAfter(cfg, v, req, variant, primary, phase);
    var v' := Fold(Step, v, Decide(cfg, v, req, variant, primary, phase).out);
    assert Declared(v') == Declared(v) && Unanswered(v') == {};
    assert Active(cfg, v') == Active(cfg, v);
  }

  /** A closing transition to a phase in which nothing is pending. */
  lemma QuietMove(cfg: Config, v: View, t: Transition, rest: Call)
    requires v.phase == Some(t.from) && rest.out == [] && Move(t, rest).outcome.Returned?
    requires NoneAhead(cfg, v) && (t.to == Waiting || t.to == Assertion)
    ensures var v' := Fold(Step, v, Move(t, rest).out);
            && AtRest(cfg, v') && v'.last == Some(t)
            && Work(cfg, v') == Remaining(cfg, cfg.variants, v.cleaned.Keys) - 2 * ActionsOf(cfg, Active(cfg, v))
                                - (if t.to == Waiting then 0 else 1)
  {
    MoveAfter(v, t, rest);
    assert Declared(Fold(Step, v, Move(t, rest).out)) == Declared(v);
  }

  lemma RecoveryMove(cfg: Config, v: View, t: Transition, rest: Call, ref: Ref)
    requires v.phase == Some(t.from) && rest.out == [] && Move(t, rest).outcome.Returned?
    requires NoneAhead(cfg, v) && Foremost(cfg, v, ref) && Unanswered(v) <= {ref}
    requires t.to == Recovery && t.ref == Some(ref)
    ensures var v' := Fold(Step, v, Move(t, rest).out);
            && AtRest(cfg, v')
            && Work(cfg, v') == Remaining(cfg, cfg.variants, v.cleaned.Keys) - 2 * ref.index - 1
  {
    MoveAfter(v, t, rest);
    assert Declared(Fold(Step, v, Move(t, rest).out)) == Declared(v);
  }

  lemma SettleProgress(cfg: Config, v: View, req: Request, ref: Ref)
    requires GoodConfig(cfg) && Answered(cfg, v, ref) && v.phase == Some(ActionRequired) && ref in v.receipts
    requires SettleReceipt(cfg, v, req, ref, v.receipts[ref]).outcome.Returned?
    ensures var v' := Fold(Step, v, SettleReceipt(cfg, v, req, ref, v.receipts[ref]).out);
            AtRest(cfg, v') && Work(cfg, v') < Remaining(cfg, cfg.variants, v.cleaned.Keys) - 2 * ref.index
  {
    var receipt := v.receipts[ref];
    if receipt == AmbiguousReceipt {
      RecoveryMove(cfg, v,
        Transition(ActionRequired, Recovery, Some(ref.variant), Some(ref), Some(AmbiguousMutation), None),
        Return(AwaitReadback(ref.variant, ref)), ref);
    } else if PrimaryForReceiptOutcome(receipt).Some? {
      DecisionProgress(cfg, v, req, ref.variant, PrimaryForReceiptOutcome(receipt).value, ActionRequired);
    } else if ref.index + 1 < |cfg.manifest[ref.variant].actions| {
      NextActionProgress(cfg, v, req, ref, ref.Following(), ActionRequired);
    } else if ref.variant in req.notBefore && req.now < req.notBefore[ref.variant] {
      var nb := req.notBefore[ref.variant];
      QuietMove(cfg, v, Transition(ActionRequired, Waiting, Some(ref.variant), None, None, Some(nb)),
                Return(AwaitWindow(ref.variant, nb)));
    } else {
      QuietMove(cfg, v, Transition(ActionRequired, Assertion, Some(ref.variant), None, None, None),
                Return(AskAssertion(ref.variant, cfg.manifest[ref.variant].tokens)));
    }
  }

  /** The one pending intent is the shown one. */
  lemma PendingIsShown(cfg: Config, v: View)
    requires Settled(cfg, v) && v.phase == Some(ActionRequired)
    ensures var pending := NewestUnanswered(v.intents, v.answered);
            pending.Some? && pending.value.ref == v.last.value.ref.value
  {
    var pending := NewestUnanswered(v.intents, v.answered);
    var ref := v.last.value.ref.value;
    assert ref in Unanswered(v);
    assert exists i :: i in v.intents && i.ref == ref;
    assert pending.value.ref in Unanswered(v);
  }

  lemma AnswerIsAnswered(cfg: Config, v: View, e: Event, ref: Ref)
    requires GoodConfig(cfg) && Settled(cfg, v) && (v.phase == Some(ActionRequired) || v.phase == Some(Recovery))
    requires v.last.value.ref == Some(ref)
    requires (e.ReceiptTaken? || e.ReadbackTaken?) && e.ref == ref && Guard(cfg, v, e)
    ensures Answered(cfg, Step(v, e), ref)
  {
    KeepsInv(cfg, v, e);
    KeepsOrder(cfg, v, e);
    SerialHolds(cfg, Step(v, e));
    DeclaredStep(v, e);
    DeclaredIsJustified(cfg, v, ref);
    assert Unanswered(Step(v, e)) == {};
  }

  lemma ActionProgress(cfg: Config, v: View, req: Request)
    requires GoodConfig(cfg) && Settled(cfg, v) && v.phase == Some(ActionRequired)
    requires Rest(cfg, v, req).outcome.Returned?
    ensures Progress(cfg, v, Fold(Step, v, Rest(cfg, v, req).out), KindOf(v, req))
  {
    PendingIsShown(cfg, v);
    var intent := NewestUnanswered(v.intents, v.answered).value;
    var ref := intent.ref;
    match req.signal
    case None =>
      var t := Transition(ActionRequired, ActionRequired, Some(ref.variant), Some(ref), None, None);
      MoveAfter(v, t, ShowAction(cfg, req, intent));
      assert Declared(v.(last := Some(t))) == Declared(v);
    case Some(signal) =>
      var e := ReceiptTaken(ref, signal.receipt);
      AnswerIsAnswered(cfg, v, e, ref);
      FoldEmit(v, e, SettleReceipt(cfg, Step(v, e), req, ref, signal.receipt));
      SettleProgress(cfg, Step(v, e), req, ref);
  }

  lemma RecoveryProgress(cfg: Config, v: View, req: Request)
    requires GoodConfig(cfg) && Settled(cfg, v) && v.phase == Some(Recovery)
    requires Rest(cfg, v, req).outcome.Returned?
    ensures Progress(cfg, v, Fold(Step, v, Rest(cfg, v, req).out), KindOf(v, req))
  {
    var ref := v.last.value.ref.value;
    match req.signal
    case None =>
      RecoveryMove(cfg, v, Transition(Recovery, Recovery, Some(ref.variant), Some(ref), Some(AmbiguousMutation), None),
                   Return(AwaitReadback(ref.variant, ref)), ref);
    case Some(signal) => ReadbackProgress(cfg, v, req, ref, signal.readback);
  }

  lemma ReadbackProgress(cfg: Config, v: View, req: Request, ref: Ref, readback: ReadbackOutcome)
    requires GoodConfig(cfg) && Settled(cfg, v) && v.phase == Some(Recovery) && v.last.value.ref == Some(ref)
    requires req.signal == Some(ReadbackResult(ref, readback))
    requires Rest(cfg, v, req) == ContinueRecovery(cfg, v, req, ref)
    requires ContinueRecovery(cfg, v, req, ref).outcome.Returned?
    ensures Progress(cfg, v, Fold(Step, v, ContinueRecovery(cfg, v, req, ref).out), KindOf(v, req))
  {
    var e := ReadbackTaken(ref, readback);
    AnswerIsAnswered(cfg, v, e, ref);
    var v1 := Step(v, e);
    match readback
    case Absent =>
      FoldEmit(v, e, ExposeNextAction(cfg, req, ref.Retry(), Recovery));
      NextActionProgress(cfg, v1, req, ref, ref.Retry(), Recovery);
    case Failed => ReadbackDecides(cfg, v, req, e, PrimaryOutcome(Fail, Some(AssertionFailed)));
    case _ => ReadbackDecides(cfg, v, req, e, PrimaryOutcome(Ambiguous, Some(AmbiguousMutation)));
  }

  lemma ReadbackDecides(cfg: Config, v: View, req: Request, e: Event, primary: PrimaryOutcome)
    requires GoodConfig(cfg) && e.ReadbackTaken?
    requires var v1 := Step(v, e);
             v1.phase == Some(Recovery) && Unanswered(v1) == {} && NoneAhead(cfg, v1)
               && Some(e.ref.variant) == Active(cfg, v1)
    ensures var v1 := Step(v, e);
            var v' := Fold(Step, v, Emit(e, Decide(cfg, v1, req, e.ref.variant, primary, Recovery)).out);
            && AtRest(cfg, v')
            && Work(cfg, v')
                 == Remaining(cfg, cfg.variants, v1.cleaned.Keys) - 2 * ActionsOf(cfg, Some(e.ref.variant)) - 2
  {
    var v1 := Step(v, e);
    FoldEmit(v, e, Decide(cfg, v1, req, e.ref.variant, primary, Recovery));
    DecisionProgress(cfg, v1, req, e.ref.variant, primary, Recovery);
  }

  lemma WaitProgress(cfg: Config, v: View, req: Request)
    requires GoodConfig(cfg) && Settled(cfg, v) && v.phase == Some(Waiting)
    requires Rest(cfg, v, req).outcome.Returned?
    ensures Progress(cfg, v, Fold(Step, v, Rest(cfg, v, req).out), KindOf(v, req))
  {
    NothingPending(v);
    var x, nb := v.last.value.variant.value, v.last.value.notBefore.value;
    WaitCall(cfg, v, req, x, nb);
    if req.now < nb {
      QuietMove(cfg, v, Transition(Waiting, Waiting, Some(x), None, None, Some(nb)), Return(AwaitWindow(x, nb)));
    } else {
      QuietMove(cfg, v, Transition(Waiting, Assertion, Some(x), None, None, None),
                Return(AskAssertion(x, cfg.manifest[x].tokens)));
    }
  }

  lemma WaitCall(cfg: Config, v: View, req: Request, x: VariantId, nb: int)
    requires v.phase == Some(Waiting) && NewestUnanswered(v.intents, v.answered).None? && x in cfg.manifest
    requires v.last.Some? && v.last.value.variant == Some(x) && v.last.value.notBefore == Some(nb)
    requires Rest(cfg, v, req).outcome.Returned?
    ensures Rest(cfg, v, req)
            == if req.now < nb then
                 Move(Transition(Waiting, Waiting, Some(x), None, None, Some(nb)), Return(AwaitWindow(x, nb)))
               else
                 Move(Transition(Waiting, Assertion, Some(x), None, None, None),
                      Return(AskAssertion(x, cfg.manifest[x].tokens)))
  {
  }

  lemma NothingPending(v: View)
    requires Unanswered(v) == {}
    ensures NewestUnanswered(v.intents, v.answered).None?
  {
    forall i | i in v.intents ensures i.ref in v.answered {
      assert i.ref in Declared(v);
      assert i.ref !in Unanswered(v);
    }
  }

  lemma AssertionCall(cfg: Config, v: View, req: Request) returns (variant: VariantId, primary: PrimaryOutcome)
    requires v.phase == Some(Assertion) && NewestUnanswered(v.intents, v.answered).None?
    requires Rest(cfg, v, req).outcome.Returned?
    ensures v.last.Some? && v.last.value.variant == Some(variant)
    ensures Rest(cfg, v, req)
            == Emit(AssertionMade(variant, primary), Decide(cfg, v, req, variant, primary, Assertion))
  {
    variant, primary := req.signal.value.variant, req.signal.value.primary;
  }

  lemma AssertionProgress(cfg: Config, v: View, req: Request, variant: VariantId, primary: PrimaryOutcome)
    requires GoodConfig(cfg) && Settled(cfg, v) && v.phase == Some(Assertion) && v.last.value.variant == Some(variant)
    ensures var call := Emit(AssertionMade(variant, primary), Decide(cfg, v, req, variant, primary, Assertion));
            Progress(cfg, v, Fold(Step, v, call.out), Productive)
  {
    DecisionProgress(cfg, v, req, variant, primary, Assertion);
    QuietRecord(cfg, v, AssertionMade(variant, primary), Decide(cfg, v, req, variant, primary, Assertion), Productive);
  }

  /** A record that changes nothing in front of a call keeps its progress. */
  lemma QuietRecord(cfg: Config, v: View, e: Event, call: Call, kind: Kind)
    requires Step(v, e) == v && Progress(cfg, v, Fold(Step, v, call.out), kind)
    ensures Progress(cfg, v, Fold(Step, v, Emit(e, call).out), kind)
  {
    FoldEmit(v, e, call);
  }

  /** After the active variant is closed: the next one is shown, or the run is over. */
  lemma SuiteProgress(cfg: Config, v: View, req: Request, bound: int)
    requires GoodConfig(cfg) && v.answered <= Declared(v) && v.phase == Some(Cleanup) && Unanswered(v) == {}
    requires forall r :: r in Declared(v) ==> r.variant in v.cleaned
    requires bound > Remaining(cfg, cfg.variants, v.cleaned.Keys)
    requires ContinueSuite(cfg, v, req, Cleanup).outcome.Returned?
    ensures var v' := Fold(Step, v, ContinueSuite(cfg, v, req, Cleanup).out);
            AtRest(cfg, v') && Work(cfg, v') < bound
  {
    var v' := Fold(Step, v, ContinueSuite(cfg, v, req, Cleanup).out);
    match Active(cfg, v)
    case Some(x) =>
      var ref := Ref(x, 0, 1);
      ExposeAfter(cfg, v, req, ref, Cleanup);
      assert ref !in Declared(v);
      ShownIsSettled(cfg, v, v', ref);
    case None =>
      FinishAfter(cfg, v, Cleanup);
  }

  lemma CleanupCall(cfg: Config, v: View, req: Request, x: VariantId)
    requires v.phase == Some(Cleanup) && NewestUnanswered(v.intents, v.answered).None?
    requires NewestUncleaned(v.cases, v.cleaned.Keys) == Some(x)
    requires Rest(cfg, v, req).outcome.Returned?
    ensures match req.cleanup
            case CleanupPending => Rest(cfg, v, req).out == []
            case Postflight(pass) =>
              var e := CleanupDone(x, if pass then CleanupPassed else CleanupFailed);
              Rest(cfg, v, req) == Emit(e, ContinueSuite(cfg, Step(v, e), req, Cleanup))
  {
  }

  lemma NothingLeftOpen(cfg: Config, v: View, x: VariantId, cleanup: CleanupResult)
    requires GoodConfig(cfg) && Settled(cfg, v) && v.phase == Some(Cleanup) && Active(cfg, v) == Some(x)
    ensures var v1 := Step(v, CleanupDone(x, cleanup));
            && v1.answered <= Declared(v1) && Unanswered(v1) == {}
            && forall r :: r in Declared(v1) ==> r.variant in v1.cleaned
  {
    var v1 := Step(v, CleanupDone(x, cleanup));
    assert v1.cleaned.Keys == v.cleaned.Keys + {x};
    assert Declared(v1) == Declared(v) && Unanswered(v1) == {};
  }

  lemma ClosingIsWork(cfg: Config, v: View, x: VariantId, cleanup: CleanupResult)
    requires GoodConfig(cfg) && Settled(cfg, v) && v.phase == Some(Cleanup) && Active(cfg, v) == Some(x)
    ensures Remaining(cfg, cfg.variants, Step(v, CleanupDone(x, cleanup)).cleaned.Keys) < Work(cfg, v)
  {
    RemainingDrops(cfg, cfg.variants, v.cleaned.Keys, x);
    assert Step(v, CleanupDone(x, cleanup)).cleaned.Keys == v.cleaned.Keys + {x};
  }

  lemma CleanupProgress(cfg: Config, v: View, req: Request, x: VariantId, cleanup: CleanupResult)
    requires GoodConfig(cfg) && Settled(cfg, v) && v.phase == Some(Cleanup) && Active(cfg, v) == Some(x)
    requires ContinueSuite(cfg, Step(v, CleanupDone(x, cleanup)), req, Cleanup).outcome.Returned?
    ensures var v1 := Step(v, CleanupDone(x, cleanup));
            Progress(cfg, v, Fold(Step, v1, ContinueSuite(cfg, v1, req, Cleanup).out), Productive)
  {
    NothingLeftOpen(cfg, v, x, cleanup);
    ClosingIsWork(cfg, v, x, cleanup);
    SuiteProgress(cfg, Step(v, CleanupDone(x, cleanup)), req, Work(cfg, v));
  }

  lemma CleanupCallProgress(cfg: Config, v: View, req: Request)
    requires GoodConfig(cfg) && Settled(cfg, v) && v.phase == Some(Cleanup)
    requires Rest(cfg, v, req).outcome.Returned?
    ensures Progress(cfg, v, Fold(Step, v, Rest(cfg, v, req).out), KindOf(v, req))
  {
    NothingPending(v);
    AwaitedIsActive(cfg, v);
    var x := Active(cfg, v).value;
    CleanupCall(cfg, v, req, x);
    match req.cleanup
    case CleanupPending => FoldNothing(v);
    case Postflight(pass) =>
      var e := CleanupDone(x, if pass then CleanupPassed else CleanupFailed);
      FoldEmit(v, e, ContinueSuite(cfg, Step(v, e), req, Cleanup));
      CleanupProgress(cfg, v, req, x, e.cleanup);
  }

  lemma AwaitedIsActive(cfg: Config, v: View)
    requires GoodConfig(cfg) && Settled(cfg, v) && v.phase == Some(Cleanup)
    ensures NewestUncleaned(v.cases, v.cleaned.Keys) == Active(cfg, v)
  {
    var x := Active(cfg, v).value;
    var c :| c in v.cases && c.variant == x;
    var awaited := NewestUncleaned(v.cases, v.cleaned.Keys);
    assert awaited.Some?;
    var d :| d in v.cases && d.variant == awaited.value;
  }

  /** One accepted call: idle calls leave the work as it is, a retry adds one, every other call lowers it. */
  lemma CallProgress(cfg: Config, v: View, req: Request)
    requires GoodConfig(cfg) && Settled(cfg, v) && Accepted(cfg, v, req)
    ensures Progress(cfg, v, After(cfg, v, req), KindOf(v, req))
  {
    if v.phase == Some(Complete) {
      TerminalCall(cfg, v, req);
    } else {
      FoldEmit(v, DoctorChecked(req.ready, req.codes), Rest(cfg, v, req));
      match v.phase.value
      case Preflight => PreflightProgress(cfg, v, req);
      case ActionRequired => ActionProgress(cfg, v, req);
      case Recovery => RecoveryProgress(cfg, v, req);
      case Waiting => WaitProgress(cfg, v, req);
      case Assertion =>
        NothingPending(v);
        var variant, primary := AssertionCall(cfg, v, req);
        AssertionProgress(cfg, v, req, variant, primary);
      case Cleanup => CleanupCallProgress(cfg, v, req);
    }
  }

  lemma TerminalCall(cfg: Config, v: View, req: Request)
    requires Settled(cfg, v) && v.phase == Some(Complete) && Accepted(cfg, v, req)
    ensures Progress(cfg, v, After(cfg, v, req), Idle)
  {
    var e := RunDecided(Report(cfg, v).aggregate);
    FoldEmit(v, e, Return(Finished(Report(cfg, v))));
    FoldNothing(Step(v, e));
    FoldNothing(v);
    assert After(cfg, v, req) == v || After(cfg, v, req) == Step(v, e);
    assert Declared(Step(v, e)) == Declared(v);
  }

  lemma CallKeepsSerial(cfg: Config, v: View, req: Request)
    requires GoodConfig(cfg) && Serial(cfg, v)
    ensures Serial(cfg, After(cfg, v, req))
  {
    AlwaysIsBeforeLast(cfg);
    AdvanceGuarded(cfg, v, req);
    AdvanceInOrder(cfg, v, req);
    BothKept(cfg, v, Advance(cfg, v, req).out);
    SerialHolds(cfg, After(cfg, v, req));
  }

  // ---- whole runs ----

  /** The calls of an uninterrupted run, each accepted. */
  ghost predicate RunsThrough(cfg: Config, v: View, reqs: seq<Request>)
    decreases |reqs|
  {
    reqs != [] ==> Accepted(cfg, v, reqs[0]) && RunsThrough(cfg, After(cfg, v, reqs[0]), reqs[1..])
  }

  ghost function EndOf(cfg: Config, v: View, reqs: seq<Request>): View
    decreases |reqs|
  {
    if reqs == [] then v else EndOf(cfg, After(cfg, v, reqs[0]), reqs[1..])
  }

  ghost function Count(cfg: Config, v: View, reqs: seq<Request>, kind: Kind): nat
    decreases |reqs|
  {
    if reqs == [] then 0
    else (if KindOf(v, reqs[0]) == kind then 1 else 0) + Count(cfg, After(cfg, v, reqs[0]), reqs[1..], kind)
  }

  lemma {:induction false} RunProgress(cfg: Config, v: View, reqs: seq<Request>)
    requires GoodConfig(cfg) && Settled(cfg, v) && RunsThrough(cfg, v, reqs)
    ensures Settled(cfg, EndOf(cfg, v, reqs))
    ensures Count(cfg, v, reqs, Productive) + Work(cfg, EndOf(cfg, v, reqs))
            <= Work(cfg, v) + Count(cfg, v, reqs, Retrying)
    decreases |reqs|
  {
    if reqs != [] {
      CallProgress(cfg, v, reqs[0]);
      CallKeepsSerial(cfg, v, reqs[0]);
      RunProgress(cfg, After(cfg, v, reqs[0]), reqs[1..]);
    }
  }

  /**
   * From a new journal, the calls that neither idle nor retry number at most the cost of the suite
   * plus one per retry, and a run that has used them all up is complete.
   */
  lemma RunsEnd(cfg: Config, reqs: seq<Request>)
    requires GoodConfig(cfg) && RunsThrough(cfg, START, reqs)
    ensures var budget := 1 + Remaining(cfg, cfg.variants, {}) + Count(cfg, START, reqs, Retrying);
            && Count(cfg, START, reqs, Productive) <= budget
            && (Count(cfg, START, reqs, Productive) == budget ==> EndOf(cfg, START, reqs).phase == Some(Complete))
  {
    StartIsSettled(cfg);
    RunProgress(cfg, START, reqs);
    WorkIsNatural(cfg, EndOf(cfg, START, reqs));
    assert START.cleaned.Keys == {};
  }

  /** A request that the operator can always send next: report success, pass, and clean. */
  ghost function NextRequest(cfg: Config, v: View): Request {
    var ref := if v.last.Some? && v.last.value.ref.Some? then v.last.value.ref.value else Ref("", 0, 1);
    var variant := if v.last.Some? && v.last.value.variant.Some? then v.last.value.variant.value else "";
    var now := if v.last.Some? && v.last.value.notBefore.Some? then v.last.value.notBefore.value else 0;
    var signal :=
      match v.phase
      case Some(ActionRequired) => Some(ActionReceipt(ref, Completed))
      case Some(Recovery) => Some(ReadbackResult(ref, Applied))
      case Some(Assertion) => Some(AssertionResult(variant, PrimaryOutcome(Pass, None)))
      case _ => None;
    Request(true, true, [], Elements(cfg.variants), signal, now, map[], Postflight(true))
  }

  lemma ExposeReturns(cfg: Config, req: Request, ref: Ref, phase: Phase)
    requires KnownRef(cfg, ref) && ref.variant in req.bindings && Allowed(phase, ActionRequired)
    ensures ExposeNextAction(cfg, req, ref, phase).outcome.Returned?
  {
  }

  lemma ActionReturns(cfg: Config, v: View)
    requires GoodConfig(cfg) && Settled(cfg, v) && v.phase == Some(ActionRequired)
    ensures Rest(cfg, v, NextRequest(cfg, v)).outcome.Returned?
  {
    PendingIsShown(cfg, v);
    var ref, req := v.last.value.ref.value, NextRequest(cfg, v);
    DeclaredIsJustified(cfg, v, ref);
    assert Rest(cfg, v, req).outcome == AfterCompletedAction(cfg, req, ref, ActionRequired).outcome;
    if ref.index + 1 < |cfg.manifest[ref.variant].actions| {
      ExposeReturns(cfg, req, ref.Following(), ActionRequired);
    }
  }

  lemma FirstActionReturns(cfg: Config, v: View, req: Request, x: VariantId, phase: Phase)
    requires GoodConfig(cfg) && x in cfg.variants && req.bindings == Elements(cfg.variants)
    requires Allowed(phase, ActionRequired)
    ensures ExposeNextAction(cfg, req, Ref(x, 0, 1), phase).outcome.Returned?
  {
    ExposeReturns(cfg, req, Ref(x, 0, 1), phase);
  }

  lemma CleanupReturns(cfg: Config, v: View)
    requires GoodConfig(cfg) && Settled(cfg, v) && v.phase == Some(Cleanup)
    ensures Rest(cfg, v, NextRequest(cfg, v)).outcome.Returned?
  {
    NothingPending(v);
    AwaitedIsActive(cfg, v);
    var req := NextRequest(cfg, v);
    var v1 := Step(v, CleanupDone(Active(cfg, v).value, CleanupPassed));
    if Active(cfg, v1).Some? {
      FirstActionReturns(cfg, v1, req, Active(cfg, v1).value, Cleanup);
    }
  }

  lemma WaitReturns(cfg: Config, v: View)
    requires GoodConfig(cfg) && Settled(cfg, v) && v.phase == Some(Waiting)
    ensures Rest(cfg, v, NextRequest(cfg, v)).outcome.Returned?
  {
    NothingPending(v);
  }

  lemma DecideReturns(cfg: Config, v: View, req: Request, x: VariantId, primary: PrimaryOutcome, phase: Phase)
    requires x in cfg.manifest && NeedsCleanup(cfg.manifest[x]) && Allowed(phase, Cleanup)
    ensures Decide(cfg, v, req, x, primary, phase).outcome.Returned?
  {
  }

  lemma AssertionReturns(cfg: Config, v: View)
    requires GoodConfig(cfg) && Settled(cfg, v) && v.phase == Some(Assertion)
    ensures Rest(cfg, v, NextRequest(cfg, v)).outcome.Returned?
  {
    NothingPending(v);
    var x, req := v.last.value.variant.value, NextRequest(cfg, v);
    DoneIsDeclared(cfg, v, x);
    DecideReturns(cfg, v, req, x, PrimaryOutcome(Pass, None), Assertion);
    AssertionRest(cfg, v, req, x, PrimaryOutcome(Pass, None));
  }

  lemma AssertionRest(cfg: Config, v: View, req: Request, x: VariantId, primary: PrimaryOutcome)
    requires v.phase == Some(Assertion) && NewestUnanswered(v.intents, v.answered).None?
    requires v.last.Some? && v.last.value.variant == Some(x) && req.signal == Some(AssertionResult(x, primary))
    ensures Rest(cfg, v, req).outcome == Decide(cfg, v, req, x, primary, Assertion).outcome
  {
  }

  lemma RecoveryReturns(cfg: Config, v: View)
    requires GoodConfig(cfg) && Settled(cfg, v) && v.phase == Some(Recovery)
    ensures Rest(cfg, v, NextRequest(cfg, v)).outcome.Returned?
  {
    var ref := v.last.value.ref.value;
    DeclaredIsJustified(cfg, v, ref);
    assert exists i :: i in v.intents && i.ref == ref;
  }

  /** While the run is not complete, some call is accepted and lowers the work left. */
  lemma NextCallIsProductive(cfg: Config, v: View)
    requires GoodConfig(cfg) && Settled(cfg, v) && v.phase != Some(Complete)
    ensures Accepted(cfg, v, NextRequest(cfg, v)) && KindOf(v, NextRequest(cfg, v)) == Productive
  {
    match v.phase.value
    case Preflight => FirstActionReturns(cfg, v, NextRequest(cfg, v), Active(cfg, v).value, Preflight);
    case ActionRequired => ActionReturns(cfg, v);
    case Recovery => RecoveryReturns(cfg, v);
    case Waiting => WaitReturns(cfg, v);
    case Assertion => AssertionReturns(cfg, v);
    case Cleanup => CleanupReturns(cfg, v);
  }

  /** So a run that keeps going can always be brought to its end. */
  lemma {:induction false} RunCanFinish(cfg: Config, v: View) returns (reqs: seq<Request>)
    requires GoodConfig(cfg) && Settled(cfg, v)
    ensures RunsThrough(cfg, v, reqs) && EndOf(cfg, v, reqs).phase == Some(Complete)
    decreases if Work(cfg, v) < 0 then 0 else Work(cfg, v)
  {
    WorkIsNatural(cfg, v);
    if v.phase == Some(Complete) {
      reqs := [];
    } else {
      var req := NextRequest(cfg, v);
      NextCallIsProductive(cfg, v);
      CallProgress(cfg, v, req);
      CallKeepsSerial(cfg, v, req);
      WorkIsNatural(cfg, After(cfg, v, req));
      var rest := RunCanFinish(cfg, After(cfg, v, req));
      reqs := [req] + rest;
      assert reqs[1..] == rest;
    }
  }
}
