/**
 * The vocabulary of a live contract run (qa/live/state.ts) and the fold of its
 * case outcomes into a report (qa/live/report.ts).
 */
module LiveState {
  import opened Common

  type VariantId = string

  datatype Phase = Preflight | ActionRequired | Waiting | Recovery | Assertion | Cleanup | Complete

  /** `ALLOWED_TRANSITIONS`. */
  predicate Allowed(from: Phase, to: Phase) {
    match from
    case Preflight => to.ActionRequired? || to.Recovery? || to.Complete?
    case ActionRequired => to.ActionRequired? || to.Waiting? || to.Assertion? || to.Cleanup? || to.Recovery?
    case Waiting => to.Waiting? || to.Assertion? || to.Cleanup? || to.Complete?
    case Recovery => to.Recovery? || to.ActionRequired? || to.Assertion? || to.Cleanup? || to.Complete?
    case Assertion => to.Cleanup? || to.ActionRequired? || to.Complete?
    case Cleanup => to.Cleanup? || to.ActionRequired? || to.Complete?
    case Complete => false
  }

  datatype ReceiptOutcome =
    | Completed | Denied | Cancelled | Expired | WrongSession | ProviderError | AmbiguousReceipt | NotApplied

  datatype ReadbackOutcome = Applied | Absent | Failed | AmbiguousReadback

  datatype PrimaryResult = Pass | Fail | Blocked | Ambiguous | InfrastructureError

  datatype Reason =
    | AssertionFailed | FixtureMissing | AuthorityDenied | HumanGateDenied | HumanGateCancelled
    | HumanGateExpired | WrongSessionReason | ProviderErrorReason | TargetDrift | AmbiguousMutation
    | CleanupFailedReason

  datatype CleanupResult = NotRequired | CleanupPassed | CleanupFailed

  datatype PrimaryOutcome = PrimaryOutcome(result: PrimaryResult, reason: Option<Reason>)

  /** The verdict a receipt settles at once; `None` means that the variant goes on. */
  function PrimaryForReceiptOutcome(outcome: ReceiptOutcome): Option<PrimaryOutcome> {
    match outcome
    case Completed => None
    case NotApplied => None
    case Denied => Some(PrimaryOutcome(Blocked, Some(HumanGateDenied)))
    case Cancelled => Some(PrimaryOutcome(Blocked, Some(HumanGateCancelled)))
    case Expired => Some(PrimaryOutcome(Blocked, Some(HumanGateExpired)))
    case WrongSession => Some(PrimaryOutcome(Blocked, Some(WrongSessionReason)))
    case ProviderError => Some(PrimaryOutcome(InfrastructureError, Some(ProviderErrorReason)))
    case AmbiguousReceipt => Some(PrimaryOutcome(Ambiguous, Some(AmbiguousMutation)))
  }

  datatype CaseOutcome = CaseOutcome(variant: VariantId, primary: PrimaryOutcome, cleanup: CleanupResult)

  datatype Aggregate =
    | AllPass | SomeFail | SomeBlocked | SomeAmbiguous | SomeInfrastructureError | SomeCleanupFailed | Incomplete

  datatype RunReport = RunReport(
    aggregate: Aggregate,
    executed: seq<VariantId>,
    blocked: seq<VariantId>,
    primaryCounts: map<PrimaryResult, nat>,
    cleanupCounts: map<CleanupResult, nat>,
    cases: seq<CaseOutcome>)

  /** `casesByVariant.get`: a later outcome of a variant replaces an earlier one. */
  function LastCase(cases: seq<CaseOutcome>, variant: VariantId): Option<CaseOutcome> {
    if cases == [] then None
    else if cases[|cases| - 1].variant == variant then Some(cases[|cases| - 1])
    else LastCase(cases[..|cases| - 1], variant)
  }

  /** The outcomes of the declared variants that have one, in declared order. */
  function ReportedCases(declared: seq<VariantId>, cases: seq<CaseOutcome>): seq<CaseOutcome> {
    if declared == [] then []
    else
      var rest := ReportedCases(declared[1..], cases);
      match LastCase(cases, declared[0])
      case None => rest
      case Some(c) => [c] + rest
  }

  function BlockedVariants(declared: seq<VariantId>, cases: seq<CaseOutcome>): seq<VariantId> {
    if declared == [] then []
    else
      var c := LastCase(cases, declared[0]);
      (if c.None? || c.value.primary.result == Blocked then [declared[0]] else [])
      + BlockedVariants(declared[1..], cases)
  }

  function MissingVariants(declared: seq<VariantId>, cases: seq<CaseOutcome>): seq<VariantId> {
    if declared == [] then []
    else
      (if LastCase(cases, declared[0]).None? then [declared[0]] else []) + MissingVariants(declared[1..], cases)
  }

  predicate HasPrimary(cases: seq<CaseOutcome>, result: PrimaryResult) {
    exists c :: c in cases && c.primary.result == result
  }

  predicate HasFailedCleanup(cases: seq<CaseOutcome>) {
    exists c :: c in cases && c.cleanup == CleanupFailed
  }

  function AggregateResult(cases: seq<CaseOutcome>, missing: seq<VariantId>): Aggregate {
    if missing != [] then Incomplete
    else if HasFailedCleanup(cases) then SomeCleanupFailed
    else if HasPrimary(cases, InfrastructureError) then SomeInfrastructureError
    else if HasPrimary(cases, Ambiguous) then SomeAmbiguous
    else if HasPrimary(cases, Blocked) then SomeBlocked
    else if HasPrimary(cases, Fail) then SomeFail
    else AllPass
  }

  function CountPrimary(cases: seq<CaseOutcome>, result: PrimaryResult): nat {
    if cases == [] then 0
    else (if cases[0].primary.result == result then 1 else 0) + CountPrimary(cases[1..], result)
  }

  function CountCleanup(cases: seq<CaseOutcome>, result: CleanupResult): nat {
    if cases == [] then 0
    else (if cases[0].cleanup == result then 1 else 0) + CountCleanup(cases[1..], result)
  }

  function VariantsOf(cases: seq<CaseOutcome>): (r: seq<VariantId>)
    ensures |r| == |cases|
  {
    if cases == [] then [] else [cases[0].variant] + VariantsOf(cases[1..])
  }

  /** `aggregateRunReport`; `declared` lists each variant once. */
  function AggregateRunReport(declared: seq<VariantId>, cases: seq<CaseOutcome>): RunReport {
    var reported := ReportedCases(declared, cases);
    RunReport(
      AggregateResult(reported, MissingVariants(declared, cases)),
      VariantsOf(reported),
      BlockedVariants(declared, cases),
      map[Pass := CountPrimary(reported, Pass), Fail := CountPrimary(reported, Fail),
          Blocked := CountPrimary(reported, Blocked), Ambiguous := CountPrimary(reported, Ambiguous),
          InfrastructureError := CountPrimary(reported, InfrastructureError)],
      map[NotRequired := CountCleanup(reported, NotRequired), CleanupPassed := CountCleanup(reported, CleanupPassed),
          CleanupFailed := CountCleanup(reported, CleanupFailed)],
      reported)
  }

  lemma {:induction false} LastCaseIsLast(cases: seq<CaseOutcome>, x: VariantId)
    ensures var r := LastCase(cases, x);
            && (r.Some? ==> r.value in cases && r.value.variant == x)
            && (r.None? <==> forall c :: c in cases ==> c.variant != x)
    decreases |cases|
  {
    if cases != [] {
      var init, last := cases[..|cases| - 1], cases[|cases| - 1];
      assert cases == init + [last];
      LastCaseIsLast(init, x);
    }
  }

  /** The report holds exactly the last outcome of each declared variant that has one. */
  lemma {:induction false} ReportsLastCases(declared: seq<VariantId>, cases: seq<CaseOutcome>)
    ensures forall c :: c in ReportedCases(declared, cases)
                        <==> c.variant in declared && LastCase(cases, c.variant) == Some(c)
  {
    if declared != [] {
      ReportsLastCases(declared[1..], cases);
      LastCaseIsLast(cases, declared[0]);
      assert forall x :: x in declared <==> x == declared[0] || x in declared[1..];
      var rest := ReportedCases(declared[1..], cases);
      match LastCase(cases, declared[0])
      case None =>
      case Some(c) => assert forall d :: d in [c] + rest <==> d == c || d in rest;
    }
  }

  lemma {:induction false} NothingMissing(declared: seq<VariantId>, cases: seq<CaseOutcome>)
    ensures MissingVariants(declared, cases) == [] <==> forall x :: x in declared ==> LastCase(cases, x).Some?
  {
    if declared != [] {
      NothingMissing(declared[1..], cases);
      assert forall x :: x in declared <==> x == declared[0] || x in declared[1..];
      if LastCase(cases, declared[0]).None? {
        assert declared[0] in declared && MissingVariants(declared, cases)[0] == declared[0];
      } else {
        assert MissingVariants(declared, cases) == MissingVariants(declared[1..], cases);
      }
    }
  }

  predicate GoodCase(c: CaseOutcome) {
    c.primary.result == Pass && c.cleanup != CleanupFailed
  }

  lemma AllPassMeansGoodCases(cases: seq<CaseOutcome>)
    ensures AggregateResult(cases, []) == AllPass <==> forall c :: c in cases ==> GoodCase(c)
  {
    if AggregateResult(cases, []) == AllPass {
      forall c | c in cases ensures GoodCase(c) {
        match c.primary.result
        case Pass =>
        case _ =>
      }
    }
  }

  /** A run passes exactly when every declared variant ended in a pass and no cleanup failed. */
  lemma PassMeansEveryVariantPassed(declared: seq<VariantId>, cases: seq<CaseOutcome>)
    ensures AggregateRunReport(declared, cases).aggregate == AllPass
       <==> forall x :: x in declared ==> LastCase(cases, x).Some? && GoodCase(LastCase(cases, x).value)
  {
    var reported := ReportedCases(declared, cases);
    AllPassMeansGoodCases(reported);
    ReportsLastCases(declared, cases);
    NothingMissing(declared, cases);
    if forall x :: x in declared ==> LastCase(cases, x).Some? {
      assert forall c :: c in reported ==> LastCase(cases, c.variant) == Some(c);
      forall x | x in declared ensures LastCase(cases, x).value in reported {
        LastCaseIsLast(cases, x);
      }
    }
  }

  lemma {:induction false} CountsAddUp(cases: seq<CaseOutcome>)
    ensures CountPrimary(cases, Pass) + CountPrimary(cases, Fail) + CountPrimary(cases, Blocked)
            + CountPrimary(cases, Ambiguous) + CountPrimary(cases, InfrastructureError) == |cases|
    ensures CountCleanup(cases, NotRequired) + CountCleanup(cases, CleanupPassed)
            + CountCleanup(cases, CleanupFailed) == |cases|
  {
    if cases != [] {
      CountsAddUp(cases[1..]);
    }
  }

  lemma {:induction false} BlockedCount(declared: seq<VariantId>, cases: seq<CaseOutcome>)
    ensures |BlockedVariants(declared, cases)| + |ReportedCases(declared, cases)|
            == |declared| + CountPrimary(ReportedCases(declared, cases), Blocked)
  {
    if declared != [] {
      BlockedCount(declared[1..], cases);
      var rest := ReportedCases(declared[1..], cases);
      match LastCase(cases, declared[0])
      case None =>
      case Some(c) => assert ([c] + rest)[1..] == rest;
    }
  }

  /** Nothing is counted twice or dropped: both tallies, and the inventory, account for every variant. */
  lemma ReportConservesVariants(declared: seq<VariantId>, cases: seq<CaseOutcome>)
    ensures var r := AggregateRunReport(declared, cases);
            && r.primaryCounts[Pass] + r.primaryCounts[Fail] + r.primaryCounts[Blocked]
               + r.primaryCounts[Ambiguous] + r.primaryCounts[InfrastructureError] == |r.executed|
            && r.cleanupCounts[NotRequired] + r.cleanupCounts[CleanupPassed] + r.cleanupCounts[CleanupFailed]
               == |r.executed|
            && |r.blocked| + |r.executed| == |declared| + r.primaryCounts[Blocked]
  {
    CountsAddUp(ReportedCases(declared, cases));
    BlockedCount(declared, cases);
  }
}
