/**
 * The runner in the form it runs: an object that keeps nothing but the journal, re-reads it by
 * loops, and appends to it event by event. Each method is proved against LiveRunner.
 */
module LiveRun {
  import opened Common
  import opened LiveState
  import opened LiveJournal
  import R = LiveRunner
  import opened Traces

  lemma PrefixLast(events: Journal, i: nat)
    requires i < |events|
    ensures ViewOf(events[..i + 1]) == Step(ViewOf(events[..i]), events[i])
  {
    assert events[..i + 1] == events[..i] + [events[i]];
    ViewSnoc(events[..i], events[i]);
  }

  lemma WholePrefix(events: Journal)
    ensures events[..|events|] == events
  {
  }

  /** A replay that has failed stays failed. */
  lemma {:induction false} FailedReplayStays(events: Journal, i: nat)
    requires i <= |events| && ViewOf(events[..i]).phase.None?
    ensures ViewOf(events).phase.None?
    decreases |events| - i
  {
    if i == |events| {
      WholePrefix(events);
    } else {
      PrefixLast(events, i);
      FailedReplayStays(events, i + 1);
    }
  }

  method DerivePhase(events: Journal) returns (phase: Option<Phase>)
    ensures phase == ViewOf(events).phase
  {
    var current := Preflight;
    for i := 0 to |events|
      invariant ViewOf(events[..i]).phase == Some(current)
    {
      PrefixLast(events, i);
      if events[i].Moved? {
        var t := events[i].move;
        if t.from != current || !Allowed(t.from, t.to) {
          FailedReplayStays(events, i + 1);
          return None;
        }
        current := t.to;
      }
    }
    WholePrefix(events);
    return Some(current);
  }

  method LastTransition(events: Journal) returns (last: Option<Transition>)
    ensures last == ViewOf(events).last
  {
    WholePrefix(events);
    var index := |events|;
    while index > 0
      invariant 0 <= index <= |events|
      invariant ViewOf(events).last == ViewOf(events[..index]).last
    {
      index := index - 1;
      PrefixLast(events, index);
      if events[index].Moved? {
        return Some(events[index].move);
      }
    }
    return None;
  }

  method AnsweredRefs(events: Journal) returns (answered: set<Ref>)
    ensures answered == ViewOf(events).answered
  {
    answered := {};
    for i := 0 to |events|
      invariant answered == ViewOf(events[..i]).answered
    {
      PrefixLast(events, i);
      if events[i].ReceiptTaken? || events[i].ReadbackTaken? {
        answered := answered + {events[i].ref};
      }
    }
    WholePrefix(events);
  }

  method FindOutstandingIntent(events: Journal) returns (found: Option<Intent>)
    ensures found == NewestUnanswered(ViewOf(events).intents, ViewOf(events).answered)
  {
    var answered := AnsweredRefs(events);
    WholePrefix(events);
    var index := |events|;
    while index > 0
      invariant 0 <= index <= |events|
      invariant NewestUnanswered(ViewOf(events).intents, answered)
                == NewestUnanswered(ViewOf(events[..index]).intents, answered)
    {
      index := index - 1;
      PrefixLast(events, index);
      ghost var before := ViewOf(events[..index]).intents;
      if events[index].IntentDeclared? {
        assert (before + [events[index].intent])[..|before|] == before;
        if events[index].intent.ref !in answered {
          return Some(events[index].intent);
        }
      }
    }
    return None;
  }

  /** The last intent with a given reference, as recovery and resumption look it up. */
  method FindIntent(events: Journal, ref: Ref) returns (found: Option<Intent>)
    ensures found == NewestIntent(ViewOf(events).intents, ref)
  {
    WholePrefix(events);
    var index := |events|;
    while index > 0
      invariant 0 <= index <= |events|
      invariant NewestIntent(ViewOf(events).intents, ref) == NewestIntent(ViewOf(events[..index]).intents, ref)
    {
      index := index - 1;
      PrefixLast(events, index);
      ghost var before := ViewOf(events[..index]).intents;
      if events[index].IntentDeclared? {
        assert (before + [events[index].intent])[..|before|] == before;
        if events[index].intent.ref == ref {
          return Some(events[index].intent);
        }
      }
    }
    return None;
  }

  method FindReceipt(events: Journal, ref: Ref) returns (found: Option<ReceiptOutcome>)
    ensures var receipts := ViewOf(events).receipts;
            found == if ref in receipts then Some(receipts[ref]) else None
  {
    WholePrefix(events);
    var index := |events|;
    while index > 0
      invariant 0 <= index <= |events|
      invariant ref in ViewOf(events).receipts <==> ref in ViewOf(events[..index]).receipts
      invariant ref in ViewOf(events).receipts ==>
                  ViewOf(events).receipts[ref] == ViewOf(events[..index]).receipts[ref]
    {
      index := index - 1;
      PrefixLast(events, index);
      if events[index].ReceiptTaken? && events[index].ref == ref {
        return Some(events[index].receipt);
      }
    }
    return None;
  }

  /** The case results in order, and the cleanup result of each closed variant. */
  method ReadCases(events: Journal) returns (cases: seq<CaseRow>, cleaned: map<VariantId, CleanupResult>)
    ensures cases == ViewOf(events).cases && cleaned == ViewOf(events).cleaned
  {
    cases, cleaned := [], map[];
    for i := 0 to |events|
      invariant cases == ViewOf(events[..i]).cases && cleaned == ViewOf(events[..i]).cleaned
    {
      PrefixLast(events, i);
      if events[i].CaseDecided? {
        cases := cases + [CaseRow(events[i].variant, events[i].primary)];
      } else if events[i].CleanupDone? {
        cleaned := cleaned[events[i].variant := events[i].cleanup];
      }
    }
    WholePrefix(events);
  }

  method LastResult(events: Journal) returns (result: Option<Aggregate>)
    ensures result == ViewOf(events).result
  {
    result := None;
    for i := 0 to |events|
      invariant result == ViewOf(events[..i]).result
    {
      PrefixLast(events, i);
      if events[i].RunDecided? {
        result := Some(events[i].aggregate);
      }
    }
    WholePrefix(events);
  }

  /** Appending `e` and then doing `rest` is doing `Emit(e, rest)`. */
  lemma Emitted(before: Journal, e: Event, rest: R.Call)
    ensures before + [e] + rest.out == before + R.Emit(e, rest).out
  {
    assert before + [e] + rest.out == before + ([e] + rest.out);
  }

  method ReportFromJournal(cfg: R.Config, events: Journal) returns (report: RunReport)
    ensures report == R.Report(cfg, ViewOf(events))
  {
    var cases, cleaned := ReadCases(events);
    report := AggregateRunReport(cfg.variants, Outcomes(cases, cleaned));
  }

  method ActiveVariant(cfg: R.Config, events: Journal) returns (variant: Option<VariantId>)
    ensures variant == R.Active(cfg, ViewOf(events))
  {
    var _, cleaned := ReadCases(events);
    variant := FirstOutside(cfg.variants, cleaned.Keys);
  }

  class Runner {
    const cfg: R.Config
    var events: Journal

    constructor (cfg: R.Config)
      ensures this.cfg == cfg && events == []
    {
      this.cfg := cfg;
      events := [];
    }

    /** Everything `call` appends has been appended since `before`. */
    ghost predicate Did(before: Journal, call: R.Call, outcome: R.Outcome)
      reads this
    {
      events == before + call.out && outcome == call.outcome
    }

    method Append(e: Event)
      modifies this`events
      ensures events == old(events) + [e]
      ensures ViewOf(events) == Step(ViewOf(old(events)), e)
    {
      ViewSnoc(events, e);
      events := events + [e];
    }

    method AppendTransition(t: Transition) returns (written: bool)
      modifies this`events
      ensures written == Allowed(t.from, t.to)
      ensures events == if written then old(events) + [Moved(t)] else old(events)
    {
      written := Allowed(t.from, t.to);
      if written {
        Append(Moved(t));
      }
    }

    /** A transition and, when the table allows it, the record that goes with it. */
    method MoveAndReturn(t: Transition, outcome: R.Outcome) returns (r: R.Outcome)
      modifies this`events
      ensures Did(old(events), R.Move(t, R.Call([], outcome)), r)
    {
      var written := AppendTransition(t);
      r := if written then outcome else R.Thrown(R.InvalidTransition);
    }

    method ExposeNextAction(req: R.Request, ref: Ref, phase: Phase) returns (r: R.Outcome)
      modifies this`events
      ensures Did(old(events), R.ExposeNextAction(cfg, req, ref, phase), r)
    {
      if ref.variant !in cfg.manifest || ref.index >= |cfg.manifest[ref.variant].actions| {
        return R.Thrown(R.SelectionDrift);
      }
      var intent := Intent(ref, cfg.manifest[ref.variant].actions[ref.index].id);
      Append(IntentDeclared(intent));
      r := MoveAndReturn(Transition(phase, ActionRequired, Some(ref.variant), Some(ref), None, None),
                         R.ShowAction(cfg, req, intent).outcome);
    }

    method FinishRun(phase: Phase) returns (r: R.Outcome)
      modifies this`events
      ensures Did(old(events), R.FinishRun(cfg, ViewOf(old(events)), phase), r)
    {
      var report := ReportFromJournal(cfg, events);
      var written := AppendTransition(Transition(phase, Complete, None, None, None, None));
      if !written {
        return R.Thrown(R.InvalidTransition);
      }
      Append(RunDecided(report.aggregate));
      r := R.Returned(R.Finished(report));
    }

    method ContinueSuite(req: R.Request, phase: Phase) returns (r: R.Outcome)
      modifies this`events
      ensures Did(old(events), R.ContinueSuite(cfg, ViewOf(old(events)), req, phase), r)
    {
      var next := ActiveVariant(cfg, events);
      if next.Some? {
        r := ExposeNextAction(req, Ref(next.value, 0, 1), phase);
      } else {
        r := FinishRun(phase);
      }
    }

    method EnterCleanupOrContinue(req: R.Request, variant: VariantId, primary: PrimaryOutcome, phase: Phase)
      returns (r: R.Outcome)
      modifies this`events
      ensures Did(old(events), R.EnterCleanupOrContinue(cfg, ViewOf(old(events)), req, variant, primary, phase), r)
    {
      if variant !in cfg.manifest {
        return R.Thrown(R.SelectionDrift);
      }
      if !R.NeedsCleanup(cfg.manifest[variant]) {
        r := CloseVariant(req, variant, phase);
      } else {
        r := MoveAndReturn(Transition(phase, Cleanup, Some(variant), None, primary.reason, None),
                           R.Returned(R.AwaitCleanup(variant, primary.reason)));
      }
    }

    /** The part for a variant that needs no cleanup. */
    method CloseVariant(req: R.Request, variant: VariantId, phase: Phase) returns (r: R.Outcome)
      modifies this`events
      ensures var done := CleanupDone(variant, NotRequired);
              Did(old(events), R.Emit(done, R.ContinueSuite(cfg, Step(ViewOf(old(events)), done), req, phase)), r)
    {
      ghost var before := events;
      Append(CleanupDone(variant, NotRequired));
      ghost var rest := R.ContinueSuite(cfg, ViewOf(events), req, phase);
      r := ContinueSuite(req, phase);
      Emitted(before, CleanupDone(variant, NotRequired), rest);
    }

    method Decide(req: R.Request, variant: VariantId, primary: PrimaryOutcome, phase: Phase) returns (r: R.Outcome)
      modifies this`events
      ensures Did(old(events), R.Decide(cfg, ViewOf(old(events)), req, variant, primary, phase), r)
    {
      ghost var before := events;
      Append(CaseDecided(variant, primary));
      ghost var rest := R.EnterCleanupOrContinue(cfg, ViewOf(events), req, variant, primary, phase);
      r := EnterCleanupOrContinue(req, variant, primary, phase);
      Emitted(before, CaseDecided(variant, primary), rest);
    }

    method EnterAssertion(variant: VariantId, phase: Phase) returns (r: R.Outcome)
      modifies this`events
      ensures Did(old(events), R.EnterAssertion(cfg, variant, phase), r)
    {
      r := MoveAndReturn(Transition(phase, Assertion, Some(variant), None, None, None),
                         if variant in cfg.manifest then
                           R.Returned(R.AskAssertion(variant, cfg.manifest[variant].tokens))
                         else R.Thrown(R.SelectionDrift));
    }

    method EnterReadbackRecovery(ref: Ref, phase: Phase) returns (r: R.Outcome)
      modifies this`events
      ensures Did(old(events), R.EnterReadbackRecovery(ref, phase), r)
    {
      r := MoveAndReturn(Transition(phase, Recovery, Some(ref.variant), Some(ref), Some(AmbiguousMutation), None),
                         R.Returned(R.AwaitReadback(ref.variant, ref)));
    }

    method AfterCompletedAction(req: R.Request, ref: Ref, phase: Phase) returns (r: R.Outcome)
      modifies this`events
      ensures Did(old(events), R.AfterCompletedAction(cfg, req, ref, phase), r)
    {
      if ref.variant !in cfg.manifest {
        return R.Thrown(R.SelectionDrift);
      }
      if ref.index + 1 < |cfg.manifest[ref.variant].actions| {
        r := ExposeNextAction(req, ref.Following(), phase);
      } else if ref.variant in req.notBefore && req.now < req.notBefore[ref.variant] {
        var notBefore := req.notBefore[ref.variant];
        r := MoveAndReturn(Transition(phase, Waiting, Some(ref.variant), None, None, Some(notBefore)),
                           R.Returned(R.AwaitWindow(ref.variant, notBefore)));
      } else {
        r := EnterAssertion(ref.variant, phase);
      }
    }

    method SettleReceipt(req: R.Request, ref: Ref, receipt: ReceiptOutcome) returns (r: R.Outcome)
      modifies this`events
      ensures Did(old(events), R.SettleReceipt(cfg, ViewOf(old(events)), req, ref, receipt), r)
    {
      if receipt == AmbiguousReceipt {
        r := EnterReadbackRecovery(ref, ActionRequired);
        return;
      }
      var primary := PrimaryForReceiptOutcome(receipt);
      if primary.Some? {
        r := Decide(req, ref.variant, primary.value, ActionRequired);
      } else {
        r := AfterCompletedAction(req, ref, ActionRequired);
      }
    }

    method ContinuePendingAction(req: R.Request, intent: Intent) returns (r: R.Outcome)
      modifies this`events
      ensures Did(old(events), R.ContinuePendingAction(cfg, ViewOf(old(events)), req, intent), r)
    {
      if req.signal.None? {
        r := MoveAndReturn(
          Transition(ActionRequired, ActionRequired, Some(intent.ref.variant), Some(intent.ref), None, None),
          R.ShowAction(cfg, req, intent).outcome);
        return;
      }
      if !req.signal.value.ActionReceipt? || req.signal.value.ref != intent.ref {
        return R.Thrown(R.InvalidSignal);
      }
      var taken := ReceiptTaken(intent.ref, req.signal.value.receipt);
      Emitted(events, taken, R.SettleReceipt(cfg, Step(ViewOf(events), taken), req, intent.ref, taken.receipt));
      Append(taken);
      r := SettleReceipt(req, intent.ref, req.signal.value.receipt);
    }

    method ContinueRecovery(req: R.Request, ref: Ref) returns (r: R.Outcome)
      modifies this`events
      ensures Did(old(events), R.ContinueRecovery(cfg, ViewOf(old(events)), req, ref), r)
    {
      if req.signal.None? {
        r := EnterReadbackRecovery(ref, Recovery);
        return;
      }
      if !req.signal.value.ReadbackResult? || req.signal.value.ref != ref {
        return R.Thrown(R.InvalidSignal);
      }
      var taken := ReadbackTaken(ref, req.signal.value.readback);
      Emitted(events, taken, R.AfterReadback(cfg, Step(ViewOf(events), taken), req, ref, taken.readback));
      Append(taken);
      match taken.readback
      case Absent => r := ExposeNextAction(req, ref.Retry(), Recovery);
      case Failed => r := Decide(req, ref.variant, PrimaryOutcome(Fail, Some(AssertionFailed)), Recovery);
      case _ => r := Decide(req, ref.variant, PrimaryOutcome(Ambiguous, Some(AmbiguousMutation)), Recovery);
    }

    method ResumeDurableReceipt(req: R.Request) returns (r: R.Outcome)
      modifies this`events
      ensures Did(old(events), R.ResumeDurableReceipt(cfg, ViewOf(old(events)), req), r)
    {
      var last := LastTransition(events);
      if last.None? || last.value.to != ActionRequired || last.value.ref.None? {
        return R.Thrown(R.InvalidTransition);
      }
      var ref := last.value.ref.value;
      var intent := FindIntent(events, ref);
      var receipt := FindReceipt(events, ref);
      if intent.None? || receipt.None? {
        return R.Thrown(R.InvalidTransition);
      }
      if req.signal.Some? {
        return R.Thrown(R.ActionReplay);
      }
      r := SettleReceipt(req, ref, receipt.value);
    }

    method ContinueObservationWait(req: R.Request) returns (r: R.Outcome)
      modifies this`events
      ensures Did(old(events), R.ContinueObservationWait(cfg, ViewOf(old(events)), req), r)
    {
      if req.signal.Some? {
        return R.Thrown(R.InvalidSignal);
      }
      var last := LastTransition(events);
      if last.None? || last.value.notBefore.None? || last.value.variant.None? {
        return R.Thrown(R.InvalidTransition);
      }
      var variant, notBefore := last.value.variant.value, last.value.notBefore.value;
      if req.now < notBefore {
        r := MoveAndReturn(Transition(Waiting, Waiting, Some(variant), None, None, Some(notBefore)),
                           R.Returned(R.AwaitWindow(variant, notBefore)));
      } else {
        r := EnterAssertion(variant, Waiting);
      }
    }

    method RecordAssertion(req: R.Request) returns (r: R.Outcome)
      modifies this`events
      ensures Did(old(events), R.RecordAssertion(cfg, ViewOf(old(events)), req), r)
    {
      var last := LastTransition(events);
      if req.signal.Some? && req.signal.value.ActionReceipt? {
        return R.Thrown(R.ActionReplay);
      }
      if last.None? || last.value.variant.None? || req.signal.None?
         || !req.signal.value.AssertionResult? || req.signal.value.variant != last.value.variant.value
      {
        return R.Thrown(R.InvalidSignal);
      }
      var variant, primary := req.signal.value.variant, req.signal.value.primary;
      Append(AssertionMade(variant, primary));
      r := Decide(req, variant, primary, Assertion);
    }

    method RecordCleanup(req: R.Request) returns (r: R.Outcome)
      modifies this`events
      ensures Did(old(events), R.RecordCleanup(cfg, ViewOf(old(events)), req), r)
    {
      var cases, cleaned := ReadCases(events);
      var awaited := NewestUncleaned(cases, cleaned.Keys);
      if awaited.None? {
        var last := LastTransition(events);
        if last.Some? && last.value.variant.Some? && last.value.variant.value in cleaned {
          r := ContinueSuite(req, Cleanup);
        } else {
          r := R.Thrown(R.InvalidSignal);
        }
        return;
      }
      if req.signal.Some? {
        return R.Thrown(R.InvalidSignal);
      }
      if req.cleanup == R.CleanupPending {
        return R.Returned(R.AwaitCleanup(awaited.value, None));
      }
      Append(CleanupDone(awaited.value, if req.cleanup.pass then CleanupPassed else CleanupFailed));
      r := ContinueSuite(req, Cleanup);
    }

    method BlockNewRun(primary: PrimaryOutcome) returns (r: R.Outcome)
      modifies this`events
      ensures Did(old(events), R.BlockFrom(cfg, ViewOf(old(events)), primary, cfg.variants), r)
    {
      ghost var whole := R.BlockFrom(cfg, ViewOf(events), primary, cfg.variants);
      var i := 0;
      while i < |cfg.variants|
        invariant 0 <= i <= |cfg.variants|
        invariant var rest := R.BlockFrom(cfg, ViewOf(events), primary, cfg.variants[i..]);
                  old(events) + whole.out == events + rest.out && whole.outcome == rest.outcome
      {
        assert cfg.variants[i..][0] == cfg.variants[i] && cfg.variants[i..][1..] == cfg.variants[i + 1..];
        var decided, done := CaseDecided(cfg.variants[i], primary), CleanupDone(cfg.variants[i], NotRequired);
        ghost var rest := R.BlockFrom(cfg, Step(Step(ViewOf(events), decided), done), primary, cfg.variants[i + 1..]);
        Emitted(events, decided, R.Emit(done, rest));
        Emitted(events + [decided], done, rest);
        Append(decided);
        Append(done);
        i := i + 1;
      }
      r := FinishRun(Preflight);
    }

    method StopForDoctorFailure(req: R.Request, phase: Phase) returns (r: R.Outcome)
      modifies this`events
      ensures Did(old(events), R.StopForDoctorFailure(cfg, ViewOf(old(events)), req, phase), r)
    {
      var active := ActiveVariant(cfg, events);
      if active.None? {
        return R.Thrown(R.InvalidSignal);
      }
      if phase != Cleanup {
        Append(CaseDecided(active.value, R.DoctorFailure(req.codes)));
      }
      r := MoveAndReturn(Transition(phase, Cleanup, Some(active.value), None, Some(TargetDrift), None),
                         R.Returned(R.AwaitCleanup(active.value, Some(TargetDrift))));
    }

    method ResumeTerminalRun() returns (r: R.Outcome)
      modifies this`events
      ensures Did(old(events), R.ResumeTerminalRun(cfg, ViewOf(old(events))), r)
    {
      var report := ReportFromJournal(cfg, events);
      var result := LastResult(events);
      if result.Some? {
        if result.value != report.aggregate {
          return R.Thrown(R.InvalidTransition);
        }
      } else {
        Append(RunDecided(report.aggregate));
      }
      r := R.Returned(R.Finished(report));
    }

    method Dispatch(req: R.Request, phase: Phase) returns (r: R.Outcome)
      modifies this`events
      ensures Did(old(events), R.Dispatch(cfg, ViewOf(old(events)), req, phase), r)
    {
      var outstanding := FindOutstandingIntent(events);
      if outstanding.Some? && phase != ActionRequired && phase != Recovery {
        r := EnterReadbackRecovery(outstanding.value.ref, phase);
        return;
      }
      match phase
      case Recovery =>
        var last := LastTransition(events);
        if last.None? || last.value.to != Recovery || last.value.ref.None? {
          return R.Thrown(R.InvalidTransition);
        }
        var intent := FindIntent(events, last.value.ref.value);
        if intent.None? {
          return R.Thrown(R.InvalidTransition);
        }
        r := ContinueRecovery(req, last.value.ref.value);
      case ActionRequired =>
        if outstanding.None? {
          r := ResumeDurableReceipt(req);
        } else {
          r := ContinuePendingAction(req, outstanding.value);
        }
      case Waiting => r := ContinueObservationWait(req);
      case Assertion => r := RecordAssertion(req);
      case Cleanup => r := RecordCleanup(req);
      case Preflight =>
        if req.signal.Some? {
          return R.Thrown(R.InvalidSignal);
        }
        var active := ActiveVariant(cfg, events);
        if active.None? {
          return R.Thrown(R.InvalidTransition);
        }
        r := ExposeNextAction(req, Ref(active.value, 0, 1), Preflight);
      case Complete => r := R.Thrown(R.InvalidTransition);
    }

    /** `advanceLiveRun` on an existing journal. */
    method Advance(req: R.Request) returns (r: R.Outcome)
      modifies this`events
      ensures Did(old(events), R.Advance(cfg, ViewOf(old(events)), req), r)
    {
      if !req.admitted {
        return R.Thrown(R.NotAdmitted);
      }
      var phase := DerivePhase(events);
      if phase.None? {
        return R.Thrown(R.InvalidTransition);
      }
      if phase.value == Complete {
        r := ResumeTerminalRun();
        return;
      }
      var doctor := DoctorChecked(req.ready, req.codes);
      Emitted(events, doctor, R.AfterDoctor(cfg, ViewOf(events), req, phase.value));
      Append(doctor);
      if req.ready {
        r := Dispatch(req, phase.value);
      } else {
        r := StopForDoctorFailure(req, phase.value);
      }
    }

    /** `advanceLiveRun` right after it created the journal. */
    method Begin(req: R.Request) returns (r: R.Outcome)
      requires events == []
      modifies this`events
      ensures Did([], R.Begin(cfg, req), r)
    {
      if !req.admitted {
        return R.Thrown(R.NotAdmitted);
      }
      if req.signal.Some? {
        return R.Thrown(R.InvalidSignal);
      }
      Append(DoctorChecked(req.ready, req.codes));
      if !req.ready {
        r := BlockNewRun(R.DoctorFailure(req.codes));
      } else if cfg.variants == [] {
        r := R.Thrown(R.SelectionDrift);
      } else {
        r := ExposeNextAction(req, Ref(cfg.variants[0], 0, 1), Preflight);
      }
    }
  }
}
