/**
 * The append-only run journal (qa/live/safety/journal.ts) and what the runner
 * re-derives from it on every call (qa/live/runner.ts:737-837).
 */
module LiveJournal {
  import opened Common
  import opened LiveState
  import opened Traces

  /**
   * An action reference. The source prints it as `variant:index+1:attempt` and
   * uses `intent:` plus that text as the intent id; LiveRefs shows that the text
   * determines the reference.
   */
  datatype Ref = Ref(variant: VariantId, index: nat, attempt: nat) {
    function Retry(): Ref { Ref(variant, index, attempt + 1) }
    function Following(): Ref { Ref(variant, index + 1, 1) }
  }

  datatype Intent = Intent(ref: Ref, actionId: string)

  datatype Transition = Transition(
    from: Phase, to: Phase, variant: Option<VariantId>, ref: Option<Ref>, reason: Option<Reason>,
    notBefore: Option<int>)

  datatype Event =
    | DoctorChecked(ready: bool, codes: seq<string>)
    | IntentDeclared(intent: Intent)
    | ReceiptTaken(ref: Ref, receipt: ReceiptOutcome)
    | ReadbackTaken(ref: Ref, readback: ReadbackOutcome)
    | Moved(move: Transition)
    | AssertionMade(variant: VariantId, primary: PrimaryOutcome)
    | CaseDecided(variant: VariantId, primary: PrimaryOutcome)
    | CleanupDone(variant: VariantId, cleanup: CleanupResult)
    | RunDecided(aggregate: Aggregate)
    | LedgerNote  // the coordinator's own records, which the runner skips

  type Journal = seq<Event>

  datatype CaseRow = CaseRow(variant: VariantId, primary: PrimaryOutcome)

  /**
   * Everything the runner's projections can see. `phase` is absent when
   * `derivePhase` throws.
   */
  datatype View = View(
    phase: Option<Phase>,
    last: Option<Transition>,
    intents: seq<Intent>,
    answered: set<Ref>,
    receipts: map<Ref, ReceiptOutcome>,
    absent: set<Ref>,
    cases: seq<CaseRow>,
    cleaned: map<VariantId, CleanupResult>,
    result: Option<Aggregate>)

  const START := View(Some(Preflight), None, [], {}, map[], {}, [], map[], None)

  function Step(v: View, e: Event): View {
    match e
    case IntentDeclared(intent) => v.(intents := v.intents + [intent])
    case ReceiptTaken(ref, outcome) => v.(answered := v.answered + {ref}, receipts := v.receipts[ref := outcome])
    case ReadbackTaken(ref, outcome) =>
      v.(answered := v.answered + {ref}, absent := if outcome == Absent then v.absent + {ref} else v.absent)
    case Moved(t) =>
      v.(last := Some(t), phase := if v.phase == Some(t.from) && Allowed(t.from, t.to) then Some(t.to) else None)
    case CaseDecided(variant, primary) => v.(cases := v.cases + [CaseRow(variant, primary)])
    case CleanupDone(variant, cleanup) => v.(cleaned := v.cleaned[variant := cleanup])
    case RunDecided(aggregate) => v.(result := Some(aggregate))
    case DoctorChecked(_, _) => v
    case AssertionMade(_, _) => v
    case LedgerNote => v
  }

  ghost function ViewOf(j: Journal): View {
    Fold(Step, START, j)
  }

  lemma ViewSnoc(j: Journal, e: Event)
    ensures ViewOf(j + [e]) == Step(ViewOf(j), e)
  {
    FoldSnoc(Step, START, j, e);
  }

  lemma ViewLast(j: Journal)
    requires j != []
    ensures ViewOf(j) == Step(ViewOf(j[..|j| - 1]), j[|j| - 1])
  {
  }

  /** `findOutstandingIntent`: the newest intent that no receipt or readback answers. */
  function NewestUnanswered(intents: seq<Intent>, answered: set<Ref>): (r: Option<Intent>)
    ensures r.Some? ==> r.value in intents && r.value.ref !in answered
    ensures r.None? <==> forall i :: i in intents ==> i.ref in answered
  {
    if intents == [] then None
    else if intents[|intents| - 1].ref !in answered then Some(intents[|intents| - 1])
    else NewestUnanswered(intents[..|intents| - 1], answered)
  }

  /** The newest intent that carries `ref`. */
  function NewestIntent(intents: seq<Intent>, ref: Ref): (r: Option<Intent>)
    ensures r.Some? ==> r.value in intents && r.value.ref == ref
    ensures r.None? <==> forall i :: i in intents ==> i.ref != ref
  {
    if intents == [] then None
    else if intents[|intents| - 1].ref == ref then Some(intents[|intents| - 1])
    else NewestIntent(intents[..|intents| - 1], ref)
  }

  /** `variantAwaitingCleanup`: the newest decided variant without a cleanup result. */
  function NewestUncleaned(cases: seq<CaseRow>, cleaned: set<VariantId>): (r: Option<VariantId>)
    ensures r.Some? ==> r.value !in cleaned && exists c :: c in cases && c.variant == r.value
    ensures r.None? <==> forall c :: c in cases ==> c.variant in cleaned
  {
    if cases == [] then None
    else if cases[|cases| - 1].variant !in cleaned then
      assert cases[|cases| - 1] in cases;
      Some(cases[|cases| - 1].variant)
    else NewestUncleaned(cases[..|cases| - 1], cleaned)
  }

  /** `projectCaseOutcomes`. */
  function Outcomes(cases: seq<CaseRow>, cleaned: map<VariantId, CleanupResult>): seq<CaseOutcome> {
    if cases == [] then []
    else
      var init, row := cases[..|cases| - 1], cases[|cases| - 1];
      var cleanup := if row.variant in cleaned then cleaned[row.variant] else NotRequired;
      Outcomes(init, cleaned) + [CaseOutcome(row.variant, row.primary, cleanup)]
  }

  /** The references of declared intents. */
  ghost function Declared(v: View): set<Ref> {
    set i | i in v.intents :: i.ref
  }

  /** The references whose intent nothing has answered yet. */
  ghost function Unanswered(v: View): set<Ref> {
    Declared(v) - v.answered
  }

  ghost predicate Decided(v: View, variant: VariantId) {
    exists c :: c in v.cases && c.variant == variant
  }
}
