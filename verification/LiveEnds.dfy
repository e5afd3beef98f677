/** How each dead end is reached, and in which suites. */
module LiveEnds {
  import opened Common
  import opened LiveState
  import opened LiveJournal
  import opened LiveRunner
  import opened LiveInvariant
  import opened LiveGuarded
  import opened LiveSafety
  import opened LiveOrder
  import opened LiveOrdered
  import opened LiveProgress
  import opened LiveRecovery
  import opened LiveCalls
  import opened LiveHistories
  import opened LiveDead
  import opened LiveFinish
  import opened Traces

  // ---- each dead end is reached ----

  /** The first action waits, and the doctor fails. */
  lemma StrandedByDoctor(cfg: Config) returns (v: View)
    requires ValidConfig(cfg) && HasActions(cfg) && cfg.variants != []
    ensures Leads(cfg, [Invoke(ReadyCall(cfg, None), 4)] + [Invoke(FAILED_DOCTOR, 3)], v) && Stranded(v)
  {
    var v1 := FirstAction(cfg);
    var acts := [Invoke(ReadyCall(cfg, None), 4)];
    LeadsOn(cfg, acts, v1, FAILED_DOCTOR, 3);
    FirstIsActive(cfg, v1);
    StopView(cfg, v1, FAILED_DOCTOR, cfg.variants[0]);
    v := After(cfg, v1, FAILED_DOCTOR);
    assert Ref(cfg.variants[0], 0, 1) in Unanswered(v);
  }

  /** The doctor fails at once, and the first call is cut off before its last transition. */
  lemma EmptiedByCrash(cfg: Config) returns (v: View)
    requires ValidConfig(cfg)
    ensures Leads(cfg, [Invoke(FAILED_DOCTOR, 2 + 2 * |cfg.variants|)], v) && Emptied(cfg, v)
  {
    v := BlockedHistory(cfg, |cfg.variants|);
    FirstOutsidePrefix(cfg.variants, |cfg.variants|);
    assert Unanswered(v) == {};
  }

  // ---- with a second variant ----

  /** The first two calls: the first action waits and is denied. */
  ghost function DeniedActs(cfg: Config): seq<Act>
    requires cfg.variants != []
  {
    [Invoke(ReadyCall(cfg, None), 4)]
    + [Invoke(ReadyCall(cfg, Some(ActionReceipt(Ref(cfg.variants[0], 0, 1), Denied))), 4)]
  }

  /** In cleanup of the first variant, which alone is decided. */
  ghost predicate FirstCleanup(cfg: Config, v: View)
    requires cfg.variants != []
  {
    && v.phase == Some(Cleanup) && v.cleaned == map[] && Unanswered(v) == {} && v.answered <= Declared(v)
    && NewestUncleaned(v.cases, {}) == Some(cfg.variants[0])
    && (forall c :: c in v.cases ==> c.variant == cfg.variants[0])
    && (forall r :: r in Declared(v) ==> r.variant == cfg.variants[0])
  }

  lemma ReachesCleanup(cfg: Config) returns (v: View)
    requires GoodConfig(cfg)
    ensures Leads(cfg, DeniedActs(cfg), v) && FirstCleanup(cfg, v)
  {
    GoodCleans(cfg);
    var x := cfg.variants[0];
    var denied := ReadyCall(cfg, Some(ActionReceipt(Ref(x, 0, 1), Denied)));
    var v1 := FirstAction(cfg);
    FirstIsActive(cfg, v1);
    DeniedCall(cfg, v1, Ref(x, 0, 1));
    LeadsOn(cfg, [Invoke(ReadyCall(cfg, None), 4)], v1, denied, 4);
    v := After(cfg, v1, denied);
    LeadsIsWhole(cfg, DeniedActs(cfg), v);
    CleanupIsSettled(cfg, v, x);
    AwaitedIsActive(cfg, v);
    assert v.cleaned.Keys == {};
  }

  /** The call that closes the first variant and turns to the second. */
  lemma ClosesFirst(cfg: Config, v: View)
    requires GoodConfig(cfg) && |cfg.variants| > 1 && FirstCleanup(cfg, v)
    ensures var x, y := cfg.variants[0], cfg.variants[1];
            var done := CleanupDone(x, CleanupPassed);
            Active(cfg, Step(v, done)) == Some(y)
            && Advance(cfg, v, CleanedCall(cfg))
               == Emit(DoctorChecked(true, []),
                       Emit(done, ExposeNextAction(cfg, CleanedCall(cfg), Ref(y, 0, 1), Cleanup)))
  {
    var done := CleanupDone(cfg.variants[0], CleanupPassed);
    NothingPending(v);
    assert v.cleaned.Keys == {};
    ElementsSnoc(cfg.variants, 0);
    assert cfg.variants[..0] == [];
    assert Step(v, done).cleaned.Keys == Elements(cfg.variants[..1]);
    FirstOutsidePrefix(cfg.variants, 1);
  }

  /** A ready doctor and a crash: the second variant's first intent is open in cleanup. */
  lemma StrandedByCrash(cfg: Config) returns (v: View)
    requires GoodConfig(cfg) && |cfg.variants| > 1
    ensures Leads(cfg, DeniedActs(cfg) + [Invoke(CleanedCall(cfg), 3)], v) && Stranded(v)
  {
    GoodCleans(cfg);
    var req, ref := CleanedCall(cfg), Ref(cfg.variants[1], 0, 1);
    var v2 := ReachesCleanup(cfg);
    LeadsOn(cfg, DeniedActs(cfg), v2, req, 3);
    ClosesFirst(cfg, v2);
    ExposeOut(cfg, req, ref, Cleanup);
    var doctor, done := DoctorChecked(true, []), CleanupDone(cfg.variants[0], CleanupPassed);
    var intent := Intent(ref, cfg.manifest[ref.variant].actions[0].id);
    assert Cut(Advance(cfg, v2, req).out, 3) == [doctor, done, IntentDeclared(intent)];
    v := Fold(Step, v2, [doctor, done, IntentDeclared(intent)]);
    OpenedInCleanup(v2, doctor, done, intent);
  }

  lemma OpenedInCleanup(v: View, doctor: Event, done: Event, intent: Intent)
    requires v.phase == Some(Cleanup) && intent.ref !in v.answered && doctor.DoctorChecked? && done.CleanupDone?
    ensures Stranded(Fold(Step, v, [doctor, done, IntentDeclared(intent)]))
  {
    FoldThree(Step, v, doctor, done, IntentDeclared(intent));
    DeclaredStep(Step(v, done), IntentDeclared(intent));
    assert intent.ref in Unanswered(Step(Step(v, done), IntentDeclared(intent)));
  }

  /** A crash right behind the cleanup result, then a failed doctor: cleanup names the second variant. */
  lemma MisnamedByDoctor(cfg: Config) returns (v: View)
    requires GoodConfig(cfg) && |cfg.variants| > 1
    ensures Leads(cfg, DeniedActs(cfg) + [Invoke(CleanedCall(cfg), 2)] + [Invoke(FAILED_DOCTOR, 2)], v) && Misnamed(v)
  {
    var v2 := ReachesCleanup(cfg);
    var v3 := FirstIsClosed(cfg, DeniedActs(cfg), v2);
    v := NamesSecond(cfg, DeniedActs(cfg) + [Invoke(CleanedCall(cfg), 2)], v3);
  }

  lemma FirstIsClosed(cfg: Config, acts: seq<Act>, v: View) returns (v': View)
    requires GoodConfig(cfg) && |cfg.variants| > 1 && Leads(cfg, acts, v) && FirstCleanup(cfg, v)
    ensures Leads(cfg, acts + [Invoke(CleanedCall(cfg), 2)], v')
    ensures v'.phase == Some(Cleanup) && Active(cfg, v').Some? && forall c :: c in v'.cases ==> c.variant in v'.cleaned
  {
    var req := CleanedCall(cfg);
    var doctor, done := DoctorChecked(true, []), CleanupDone(cfg.variants[0], CleanupPassed);
    LeadsOn(cfg, acts, v, req, 2);
    ClosesFirst(cfg, v);
    assert Cut(Advance(cfg, v, req).out, 2) == [doctor, done];
    FoldTwo(Step, v, doctor, done);
    v' := Step(v, done);
  }

  lemma NamesSecond(cfg: Config, acts: seq<Act>, v: View) returns (v': View)
    requires Leads(cfg, acts, v) && v.phase == Some(Cleanup) && Active(cfg, v).Some?
    requires forall c :: c in v.cases ==> c.variant in v.cleaned
    ensures Leads(cfg, acts + [Invoke(FAILED_DOCTOR, 2)], v') && Misnamed(v')
  {
    LeadsOn(cfg, acts, v, FAILED_DOCTOR, 2);
    StopView(cfg, v, FAILED_DOCTOR, Active(cfg, v).value);
    v' := After(cfg, v, FAILED_DOCTOR);
  }

  lemma FirstIsActive(cfg: Config, v: View)
    requires ValidConfig(cfg) && cfg.variants != [] && v.cleaned == map[]
    ensures Active(cfg, v) == Some(cfg.variants[0])
  {
    assert cfg.variants[..0] == [];
    assert v.cleaned.Keys == Elements(cfg.variants[..0]);
    PrefixActive(cfg, v, 0);
  }

  // ---- a variant that needs no cleanup ----

  /** A first call cut off when `k` variants are closed, and one that shows the next variant's first action. */
  ghost function ShownActs(cfg: Config, k: nat): seq<Act> {
    [Invoke(FAILED_DOCTOR, 2 + 2 * k)] + [Invoke(ReadyCall(cfg, None), 3)]
  }

  lemma ShowsFirst(cfg: Config, v: View, x: VariantId, req: Request)
    requires Fresh(v) && Active(cfg, v) == Some(x) && x in cfg.manifest && cfg.manifest[x].actions != []
    requires req.admitted && req.ready && req.signal == None
    ensures var intent := Intent(Ref(x, 0, 1), cfg.manifest[x].actions[0].id);
            var t := Transition(Preflight, ActionRequired, Some(x), Some(Ref(x, 0, 1)), None, None);
            Fold(Step, v, Cut(Advance(cfg, v, req).out, 3))
            == v.(phase := Some(ActionRequired), last := Some(t), intents := [intent])
  {
    var intent := Intent(Ref(x, 0, 1), cfg.manifest[x].actions[0].id);
    var t := Transition(Preflight, ActionRequired, Some(x), Some(Ref(x, 0, 1)), None, None);
    var doctor := DoctorChecked(true, req.codes);
    ExposeOut(cfg, req, Ref(x, 0, 1), Preflight);
    assert Advance(cfg, v, req) == Emit(doctor, ExposeNextAction(cfg, req, Ref(x, 0, 1), Preflight));
    assert Cut(Advance(cfg, v, req).out, 3) == [doctor, IntentDeclared(intent), Moved(t)];
    FoldThree(Step, v, doctor, IntentDeclared(intent), Moved(t));
    assert v.intents + [intent] == [intent];
  }

  /** The first action of variant `k` is shown, and nothing is answered yet. */
  ghost predicate ShowsVariant(cfg: Config, v: View, k: nat)
    requires k < |cfg.variants|
  {
    && v.phase == Some(ActionRequired) && Shows(v, Ref(cfg.variants[k], 0, 1)) && v.answered == {}
    && Unanswered(v) == {Ref(cfg.variants[k], 0, 1)} && v.cleaned.Keys == Elements(cfg.variants[..k])
  }

  lemma VariantShown(cfg: Config, acts: seq<Act>, v: View, k: nat) returns (v': View)
    requires ValidConfig(cfg) && HasActions(cfg) && k < |cfg.variants| && Leads(cfg, acts, v) && Fresh(v)
    requires v.cleaned.Keys == Elements(cfg.variants[..k])
    ensures Leads(cfg, acts + [Invoke(ReadyCall(cfg, None), 3)], v') && ShowsVariant(cfg, v', k)
  {
    var ready := ReadyCall(cfg, None);
    PrefixActive(cfg, v, k);
    ShowsFirst(cfg, v, cfg.variants[k], ready);
    LeadsOn(cfg, acts, v, ready, 3);
    v' := Fold(Step, v, Cut(Advance(cfg, v, ready).out, 3));
    OnlyIntent(v', Ref(cfg.variants[k], 0, 1));
  }

  lemma OnlyIntent(v: View, ref: Ref)
    requires |v.intents| == 1 && v.intents[0].ref == ref && v.answered == {}
    ensures Unanswered(v) == {ref}
  {
    assert v.intents[0] in v.intents;
  }

  lemma VariantReached(cfg: Config, k: nat) returns (v: View)
    requires ValidConfig(cfg) && HasActions(cfg) && k < |cfg.variants|
    ensures Leads(cfg, ShownActs(cfg, k), v) && ShowsVariant(cfg, v, k)
  {
    var v1 := BlockedHistory(cfg, k);
    v := VariantShown(cfg, [Invoke(FAILED_DOCTOR, 2 + 2 * k)], v1, k);
  }

  // ---- jammed ----

  /** Everything is closed behind the denial of `ref`, and the phase stays. */
  ghost predicate ClosedBy(cfg: Config, v: View, v': View, ref: Ref) {
    && v'.phase == v.phase && v'.last == v.last && Active(cfg, v').None? && Unanswered(v') == {}
    && Declared(v') == Declared(v) && v'.answered == v.answered + {ref} && v'.receipts == v.receipts[ref := Denied]
  }

  /** A denied action of the last variant, with nothing else open. */
  lemma DeniedCloses(cfg: Config, v: View, ref: Ref, req: Request)
    requires v.phase == Some(ActionRequired) && Unanswered(v) == {ref} && Light(cfg, ref.variant)
    requires ref.variant in cfg.variants && FirstOutside(cfg.variants, v.cleaned.Keys + {ref.variant}).None?
    requires req == ReadyCall(cfg, Some(ActionReceipt(ref, Denied)))
    ensures ClosedBy(cfg, v, Fold(Step, v, Cut(Advance(cfg, v, req).out, 4)), ref)
  {
    var x, primary := ref.variant, PrimaryOutcome(Blocked, Some(HumanGateDenied));
    DeniedOut(cfg, v, ref, req, primary);
    ClosedFold(v, DoctorChecked(true, []), ReceiptTaken(ref, Denied), CaseDecided(x, primary),
      CleanupDone(x, NotRequired));
    ClosedView(cfg, v, ref, CaseDecided(x, primary), CleanupDone(x, NotRequired));
  }

  lemma ClosedFold(v: View, doctor: Event, taken: Event, decided: Event, done: Event)
    requires doctor.DoctorChecked?
    ensures var call := Emit(doctor, Emit(taken, Emit(decided, Emit(done, Throw(InvalidTransition)))));
            Fold(Step, v, Cut(call.out, 4)) == Step(Step(Step(v, taken), decided), done)
  {
    var call := Emit(doctor, Emit(taken, Emit(decided, Emit(done, Throw(InvalidTransition)))));
    assert Cut(call.out, 4) == call.out;
    FoldFour(v, doctor, taken, decided, done, Throw(InvalidTransition));
    FoldNothing(Step(Step(Step(v, taken), decided), done));
  }

  lemma DeniedOut(cfg: Config, v: View, ref: Ref, req: Request, primary: PrimaryOutcome)
    requires v.phase == Some(ActionRequired) && Unanswered(v) == {ref} && Light(cfg, ref.variant)
    requires FirstOutside(cfg.variants, v.cleaned.Keys + {ref.variant}).None?
    requires req == ReadyCall(cfg, Some(ActionReceipt(ref, Denied)))
    requires primary == PrimaryOutcome(Blocked, Some(HumanGateDenied))
    ensures Advance(cfg, v, req)
            == Emit(DoctorChecked(true, []), Emit(ReceiptTaken(ref, Denied),
                 Emit(CaseDecided(ref.variant, primary), Emit(CleanupDone(ref.variant, NotRequired),
                   Throw(InvalidTransition)))))
  {
    PendingIs(v, ref);
    PendingCallOut(cfg, v, ref, Denied, req);
    DecisionCloses(cfg, Step(v, ReceiptTaken(ref, Denied)), req, ref.variant, primary);
  }

  lemma DecisionCloses(cfg: Config, v: View, req: Request, x: VariantId, primary: PrimaryOutcome)
    requires Light(cfg, x) && FirstOutside(cfg.variants, v.cleaned.Keys + {x}).None?
    ensures Decide(cfg, v, req, x, primary, ActionRequired)
            == Emit(CaseDecided(x, primary), Emit(CleanupDone(x, NotRequired), Throw(InvalidTransition)))
  {
    var v2 := Step(Step(v, CaseDecided(x, primary)), CleanupDone(x, NotRequired));
    assert v2.cleaned.Keys == v.cleaned.Keys + {x};
    assert ContinueSuite(cfg, v2, req, ActionRequired) == Throw(InvalidTransition);
  }

  lemma ClosedView(cfg: Config, v: View, ref: Ref, decided: Event, done: Event)
    requires Unanswered(v) == {ref} && FirstOutside(cfg.variants, v.cleaned.Keys + {ref.variant}).None?
    requires decided.CaseDecided? && done.CleanupDone? && done.variant == ref.variant
    ensures ClosedBy(cfg, v, Step(Step(Step(v, ReceiptTaken(ref, Denied)), decided), done), ref)
  {
    var v' := Step(Step(Step(v, ReceiptTaken(ref, Denied)), decided), done);
    assert v'.cleaned.Keys == v.cleaned.Keys + {ref.variant};
    assert Declared(v') == Declared(v);
  }

  lemma LastLeft(cfg: Config, k: nat)
    requires ValidConfig(cfg) && k + 1 == |cfg.variants|
    ensures FirstOutside(cfg.variants, Elements(cfg.variants[..k]) + {cfg.variants[k]}).None?
  {
    ElementsSnoc(cfg.variants, k);
    FirstOutsidePrefix(cfg.variants, k + 1);
  }

  /** The last variant's first action is denied. */
  ghost function JamActs(cfg: Config, last: nat): seq<Act>
    requires last < |cfg.variants|
  {
    ShownActs(cfg, last) + [Invoke(ReadyCall(cfg, Some(ActionReceipt(Ref(cfg.variants[last], 0, 1), Denied))), 4)]
  }

  /** The history jams every suite whose last variant needs no cleanup. */
  lemma JamHistory(cfg: Config, k: nat) returns (v: View)
    requires ValidConfig(cfg) && HasActions(cfg) && k + 1 == |cfg.variants| && Light(cfg, cfg.variants[k])
    ensures Leads(cfg, JamActs(cfg, k), v) && Jammed(cfg, v)
  {
    var v1 := VariantReached(cfg, k);
    v := DeniedJams(cfg, ShownActs(cfg, k), v1, k);
  }

  lemma DeniedJams(cfg: Config, acts: seq<Act>, v: View, k: nat) returns (v': View)
    requires ValidConfig(cfg) && k + 1 == |cfg.variants| && Light(cfg, cfg.variants[k]) && Leads(cfg, acts, v)
    requires ShowsVariant(cfg, v, k)
    ensures Leads(cfg, acts + [Invoke(ReadyCall(cfg, Some(ActionReceipt(Ref(cfg.variants[k], 0, 1), Denied))), 4)], v')
    ensures Jammed(cfg, v')
  {
    var ref := Ref(cfg.variants[k], 0, 1);
    var denied := ReadyCall(cfg, Some(ActionReceipt(ref, Denied)));
    LastLeft(cfg, k);
    assert ref in Unanswered(v);
    DeniedCloses(cfg, v, ref, denied);
    LeadsOn(cfg, acts, v, denied, 4);
    v' := Fold(Step, v, Cut(Advance(cfg, v, denied).out, 4));
  }

  /**
   * A suite of one variant, which has two actions and needs no cleanup: a crash leaves the second action
   * unshown, and its denial jams the run behind the first, whose receipt settles.
   */
  lemma LateJamHistory(cfg: Config) returns (acts: seq<Act>, v: View)
    requires ValidConfig(cfg) && |cfg.variants| == 1 && Light(cfg, cfg.variants[0])
    requires |cfg.manifest[cfg.variants[0]].actions| > 1
    ensures |acts| == 3 && Leads(cfg, acts, v) && Jammed(cfg, v)
    ensures var first := Ref(cfg.variants[0], 0, 1);
            Shows(v, first) && first in v.receipts && Settles(v.receipts[first])
  {
    var first, second := Ref(cfg.variants[0], 0, 1), Ref(cfg.variants[0], 1, 1);
    var acts1, v1 := UnshownAction(cfg);
    LeadsIsBasic(cfg, acts1, v1);
    var denied := ReadyCall(cfg, Some(ActionReceipt(second, Denied)));
    OneVariant(cfg, v1);
    DeniedCloses(cfg, v1, second, denied);
    LeadsOn(cfg, acts1, v1, denied, 4);
    acts, v := acts1 + [Invoke(denied, 4)], Fold(Step, v1, Cut(Advance(cfg, v1, denied).out, 4));
    LateSticks(cfg, v.answered, v.receipts, first);
  }

  lemma OneVariant(cfg: Config, v: View)
    requires ValidConfig(cfg) && |cfg.variants| == 1 && v.cleaned == map[]
    ensures FirstOutside(cfg.variants, v.cleaned.Keys + {cfg.variants[0]}).None?
  {
    LastLeft(cfg, 0);
    assert cfg.variants[..0] == [];
    assert v.cleaned.Keys == Elements(cfg.variants[..0]);
  }

  lemma LateSticks(cfg: Config, answered: set<Ref>, receipts: map<Ref, ReceiptOutcome>, first: Ref)
    requires first in answered && first in receipts && receipts[first] == Completed && ActionsBehind(cfg, first) > 1
    requires first.Following() in answered && first.Following() in receipts && receipts[first.Following()] == Denied
    ensures Sticks(cfg, answered, receipts, first)
  {
    assert Sticks(cfg, answered, receipts, first.Following());
  }

  /** A run can jam if and only if the last variant needs no cleanup. */
  lemma JamsExactly(cfg: Config)
    requires ValidConfig(cfg) && HasActions(cfg)
    ensures (exists j :: Reachable(cfg, j) && Jammed(cfg, ViewOf(j))) <==> LastIsLight(cfg)
  {
    if LastIsLight(cfg) {
      var k := |cfg.variants| - 1;
      var v := JamHistory(cfg, k);
      var j := History(cfg, JamActs(cfg, k)).value;
      assert Reachable(cfg, j) && Jammed(cfg, ViewOf(j));
    }
    forall j | Reachable(cfg, j) && Jammed(cfg, ViewOf(j)) ensures LastIsLight(cfg) {
      ReachableLegal(cfg, j);
    }
  }

  // ---- marooned ----

  /** All actions of a variant are pending or done in order, and nothing else is answered. */
  ghost predicate Working(cfg: Config, v: View, ref: Ref) {
    && v.phase == Some(ActionRequired) && Unanswered(v) == {ref} && KnownRef(cfg, ref)
    && forall r :: r in v.answered ==> r.variant == ref.variant && r.index < ref.index
  }

  ghost predicate Asserting(v: View, x: VariantId) {
    && v.phase == Some(Assertion) && Unanswered(v) == {} && v.last.Some? && v.last.value.variant == Some(x)
    && forall r :: r in v.answered ==> r.variant == x
  }

  /** A completed action shows the next one, or leads to the assertion. */
  lemma CompletedView(cfg: Config, v: View, ref: Ref, req: Request)
    requires Working(cfg, v, ref) && req == ReadyCall(cfg, Some(ActionReceipt(ref, Completed)))
    ensures var v' := After(cfg, v, req);
            && v'.cleaned == v.cleaned
            && if ActionsBehind(cfg, ref) > 1 then Working(cfg, v', ref.Following()) else Asserting(v', ref.variant)
  {
    var taken := ReceiptTaken(ref, Completed);
    var v1 := Step(v, taken);
    var rest := SettleReceipt(cfg, v1, req, ref, Completed);
    PendingIs(v, ref);
    PendingCallOut(cfg, v, ref, Completed, req);
    assert ref in Unanswered(v);
    ReceiptAnswers(v, ref, Completed);
    FoldEmit(v, DoctorChecked(true, []), Emit(taken, rest));
    FoldEmit(v, taken, rest);
    CompletedRest(cfg, v1, ref, req);
  }

  lemma CompletedRest(cfg: Config, v: View, ref: Ref, req: Request)
    requires v.phase == Some(ActionRequired) && Unanswered(v) == {} && KnownRef(cfg, ref)
    requires forall r :: r in v.answered ==> r.variant == ref.variant && r.index <= ref.index
    requires req == ReadyCall(cfg, Some(ActionReceipt(ref, Completed)))
    ensures var v' := Fold(Step, v, SettleReceipt(cfg, v, req, ref, Completed).out);
            && v'.cleaned == v.cleaned
            && if ActionsBehind(cfg, ref) > 1 then Working(cfg, v', ref.Following()) else Asserting(v', ref.variant)
  {
    var x, next := ref.variant, ref.Following();
    if ref.index + 1 < |cfg.manifest[x].actions| {
      ExposeAfter(cfg, v, req, next, ActionRequired);
      assert next !in v.answered;
    } else {
      var t := Transition(ActionRequired, Assertion, Some(x), None, None, None);
      MoveAfter(v, t, Return(AskAssertion(x, cfg.manifest[x].tokens)));
      assert Unanswered(v.(phase := Some(Assertion), last := Some(t))) == Unanswered(v);
    }
  }

  /** Every action is reported done. */
  lemma {:induction false} AllCompleted(
    cfg: Config, acts: seq<Act>, v: View, ref: Ref) returns (acts': seq<Act>, v': View)
    requires Leads(cfg, acts, v) && Working(cfg, v, ref)
    ensures Leads(cfg, acts', v') && Asserting(v', ref.variant) && v'.cleaned == v.cleaned
    decreases ActionsBehind(cfg, ref)
  {
    var req := ReadyCall(cfg, Some(ActionReceipt(ref, Completed)));
    CompletedView(cfg, v, ref, req);
    var v1 := LeadsAfter(cfg, acts, v, req);
    acts', v' := acts + [Invoke(req, |Advance(cfg, v, req).out|)], v1;
    if ActionsBehind(cfg, ref) > 1 {
      acts', v' := AllCompleted(cfg, acts', v1, ref.Following());
    }
  }

  lemma LeadsAfter(cfg: Config, acts: seq<Act>, v: View, req: Request) returns (v': View)
    requires Leads(cfg, acts, v)
    ensures v' == After(cfg, v, req) && Leads(cfg, acts + [Invoke(req, |Advance(cfg, v, req).out|)], v')
  {
    LeadsOn(cfg, acts, v, req, |Advance(cfg, v, req).out|);
    v' := After(cfg, v, req);
  }

  /** The verdict's call is cut off behind the first intent of the next variant. */
  lemma CutVerdict(cfg: Config, v: View, x: VariantId, next: VariantId, req: Request)
    requires Asserting(v, x) && Light(cfg, x) && x != next
    requires FirstOutside(cfg.variants, v.cleaned.Keys + {x}) == Some(next)
    requires next in cfg.manifest && cfg.manifest[next].actions != []
    requires req == ReadyCall(cfg, Some(AssertionResult(x, PrimaryOutcome(Pass, None))))
    ensures Marooned(Fold(Step, v, Cut(Advance(cfg, v, req).out, 5)))
  {
    var primary, ref := PrimaryOutcome(Pass, None), Ref(next, 0, 1);
    var doctor, made := DoctorChecked(true, []), AssertionMade(x, primary);
    var decided, done := CaseDecided(x, primary), CleanupDone(x, NotRequired);
    var intent := Intent(ref, cfg.manifest[next].actions[0].id);
    AssertedOut(cfg, v, x, primary, req);
    LiveRecovery.DecisionCloses(cfg, v, req, x, primary, next, Assertion);
    var expose := ExposeNextAction(cfg, req, ref, Assertion);
    ExposeOut(cfg, req, ref, Assertion);
    CutBehindIntent(doctor, made, decided, done, IntentDeclared(intent), expose);
    MaroonedFold(v, doctor, made, decided, done, intent);
  }

  lemma CutBehindIntent(doctor: Event, made: Event, decided: Event, done: Event, declared: Event, expose: Call)
    requires |expose.out| == 2 && expose.out[0] == declared
    ensures Cut(Emit(doctor, Emit(made, Emit(decided, Emit(done, expose)))).out, 5)
            == [doctor, made, decided, done, declared]
  {
  }

  lemma MaroonedFold(v: View, doctor: Event, made: Event, decided: Event, done: Event, intent: Intent)
    requires v.phase == Some(Assertion) && intent.ref !in v.answered && doctor.DoctorChecked? && made.AssertionMade?
    requires decided.CaseDecided? && done.CleanupDone?
    ensures Marooned(Fold(Step, v, [doctor, made, decided, done, IntentDeclared(intent)]))
  {
    var rest := Call([IntentDeclared(intent)], Thrown(NotAdmitted));
    assert [doctor, made, decided, done, IntentDeclared(intent)]
        == Emit(doctor, Emit(made, Emit(decided, Emit(done, rest)))).out;
    FoldFour(v, doctor, made, decided, done, rest);
    var v3 := Step(Step(v, decided), done);
    FoldOne(Step, v3, IntentDeclared(intent));
    DeclaredStep(v3, IntentDeclared(intent));
    assert intent.ref in Unanswered(Step(v3, IntentDeclared(intent)));
  }

  /** A history that maroons every suite with a variant before the last that needs no cleanup. */
  lemma MaroonHistory(cfg: Config, k: nat) returns (acts: seq<Act>, v: View)
    requires ValidConfig(cfg) && HasActions(cfg) && k + 1 < |cfg.variants| && Light(cfg, cfg.variants[k])
    ensures Leads(cfg, acts, v) && Marooned(v)
  {
    var x, next := cfg.variants[k], cfg.variants[k + 1];
    var v1 := VariantReached(cfg, k);
    var acts2, v2 := AllCompleted(cfg, ShownActs(cfg, k), v1, Ref(x, 0, 1));
    acts, v := VerdictMaroons(cfg, acts2, v2, k);
  }

  lemma VerdictMaroons(cfg: Config, acts: seq<Act>, v: View, k: nat) returns (acts': seq<Act>, v': View)
    requires ValidConfig(cfg) && HasActions(cfg) && k + 1 < |cfg.variants| && Light(cfg, cfg.variants[k])
    requires Leads(cfg, acts, v) && Asserting(v, cfg.variants[k]) && v.cleaned.Keys == Elements(cfg.variants[..k])
    ensures Leads(cfg, acts', v') && Marooned(v')
  {
    var x := cfg.variants[k];
    var req := ReadyCall(cfg, Some(AssertionResult(x, PrimaryOutcome(Pass, None))));
    ElementsSnoc(cfg.variants, k);
    FirstOutsidePrefix(cfg.variants, k + 1);
    CutVerdict(cfg, v, x, cfg.variants[k + 1], req);
    LeadsOn(cfg, acts, v, req, 5);
    acts', v' := acts + [Invoke(req, 5)], Fold(Step, v, Cut(Advance(cfg, v, req).out, 5));
  }

  /** A run can be marooned if and only if some variant before the last needs no cleanup. */
  lemma MaroonsExactly(cfg: Config)
    requires ValidConfig(cfg) && HasActions(cfg)
    ensures (exists j :: Reachable(cfg, j) && Marooned(ViewOf(j))) <==> !CleansBeforeLast(cfg)
  {
    if CleansBeforeLast(cfg) {
      forall j | Reachable(cfg, j) ensures !Marooned(ViewOf(j)) {
        var acts :| History(cfg, acts) == Some(j);
        HistoryIsOrdered(cfg, acts);
      }
    } else {
      var k :| 0 <= k < |cfg.variants| - 1 && !NeedsCleanup(cfg.manifest[cfg.variants[k]]);
      var acts, v := MaroonHistory(cfg, k);
      var j := History(cfg, acts).value;
      assert Reachable(cfg, j) && Marooned(ViewOf(j));
    }
  }
}
