/** Histories that lead where the plain promises stop: what they leave, and for which suites they exist. */
module LiveHistories {
  import opened Common
  import opened LiveState
  import opened LiveJournal
  import opened LiveRunner
  import opened LiveInvariant
  import opened LiveGuarded
  import opened LiveSafety
  import opened LiveOrder
  import opened LiveOrdered
  import opened LiveProgress
  import opened LiveRecovery
  import opened LiveCalls
  import opened Traces

  // ---- stepping through a history ----

  /** The history leaves a journal with this view. */
  ghost predicate Leads(cfg: Config, acts: seq<Act>, v: View) {
    History(cfg, acts).Some? && ViewOf(History(cfg, acts).value) == v
  }

  lemma LeadsFirst(cfg: Config, req: Request, cut: nat)
    requires req.admitted && req.signal == None
    ensures Leads(cfg, [Invoke(req, cut + 1)], Fold(Step, START, Cut(Begin(cfg, req).out, cut)))
  {
    var acts := [Invoke(req, cut + 1)];
    assert acts[..0] == [];
    assert History(cfg, acts) == Apply(cfg, None, acts[0]);
  }

  lemma LeadsOn(cfg: Config, acts: seq<Act>, v: View, req: Request, cut: nat)
    requires Leads(cfg, acts, v)
    ensures Leads(cfg, acts + [Invoke(req, cut)], Fold(Step, v, Cut(Advance(cfg, v, req).out, cut)))
  {
    var next := acts + [Invoke(req, cut)];
    assert next[..|next| - 1] == acts;
    var j := History(cfg, acts).value;
    FoldAppend(Step, START, j, Cut(Advance(cfg, v, req).out, cut));
  }

  lemma LeadsIsBasic(cfg: Config, acts: seq<Act>, v: View)
    requires ValidConfig(cfg) && Leads(cfg, acts, v)
    ensures Basic(cfg, v)
  {
    ReachableLegal(cfg, History(cfg, acts).value);
  }

  // ---- the first action, and a crash around it ----

  /** A view in preflight with nothing declared. */
  ghost predicate Fresh(v: View) {
    v.phase == Some(Preflight) && v.intents == [] && v.answered == {}
  }

  /** The crash falls between the first intent and its transition. */
  lemma LostFirst(cfg: Config, v: View, x: VariantId, req: Request)
    requires Fresh(v) && Active(cfg, v) == Some(x) && x in cfg.manifest && cfg.manifest[x].actions != []
    requires req.admitted && req.ready && req.signal == None
    ensures var intent := Intent(Ref(x, 0, 1), cfg.manifest[x].actions[0].id);
            Fold(Step, v, Cut(Advance(cfg, v, req).out, 2)) == v.(intents := [intent])
  {
    var intent := Intent(Ref(x, 0, 1), cfg.manifest[x].actions[0].id);
    var doctor, declared := DoctorChecked(true, req.codes), IntentDeclared(intent);
    ExposeOut(cfg, req, Ref(x, 0, 1), Preflight);
    assert Advance(cfg, v, req) == Emit(doctor, ExposeNextAction(cfg, req, Ref(x, 0, 1), Preflight));
    assert Cut(Advance(cfg, v, req).out, 2) == [doctor, declared];
    FoldTwo(Step, v, doctor, declared);
    assert v.intents + [intent] == [intent];
  }

  /** The next call finds it open and asks for a readback. */
  lemma EntersRecovery(cfg: Config, v: View, intent: Intent, req: Request)
    requires v.phase == Some(Preflight) && v.intents == [intent] && v.answered == {}
    requires req.admitted && req.ready && req.signal == None
    ensures var r := intent.ref;
            var t := Transition(Preflight, Recovery, Some(r.variant), Some(r), Some(AmbiguousMutation), None);
            Fold(Step, v, Cut(Advance(cfg, v, req).out, 2)) == v.(phase := Some(Recovery), last := Some(t))
  {
    var t := Transition(Preflight, Recovery, Some(intent.ref.variant), Some(intent.ref), Some(AmbiguousMutation), None);
    var doctor := DoctorChecked(true, req.codes);
    assert NewestUnanswered(v.intents, v.answered) == Some(intent);
    assert Advance(cfg, v, req).out == [doctor, Moved(t)];
    FoldTwo(Step, v, doctor, Moved(t));
  }

  // ---- blocked variants ----

  /** What the first appends of `blockNewRun` leave: closed variants, nothing else. */
  lemma {:induction false} BlockedFold(cfg: Config, v: View, primary: PrimaryOutcome, variants: seq<VariantId>, m: nat)
    requires m <= |variants|
    ensures var out := BlockFrom(cfg, v, primary, variants).out;
            2 * m <= |out| && ClosedOnly(v, Fold(Step, v, out[..2 * m]), Elements(variants[..m]))
    decreases m
  {
    if m == 0 {
      assert variants[..0] == [];
    } else {
      var decided, done := CaseDecided(variants[0], primary), CleanupDone(variants[0], NotRequired);
      var v2 := Step(Step(v, decided), done);
      var rest := BlockFrom(cfg, v2, primary, variants[1..]).out;
      var out := BlockFrom(cfg, v, primary, variants).out;
      BlockedFold(cfg, v2, primary, variants[1..], m - 1);
      assert out == [decided, done] + rest;
      BlockedPair(v, v2, decided, done, out, rest, m, Elements(variants[1..][..m - 1]));
      ElementsCons(variants, m);
    }
  }

  lemma ElementsCons<T>(s: seq<T>, m: nat)
    requires 0 < m <= |s|
    ensures Elements(s[..m]) == {s[0]} + Elements(s[1..][..m - 1])
  {
    assert s[..m] == [s[0]] + s[1..][..m - 1];
  }

  lemma BlockedPair(
    v: View, v2: View, decided: Event, done: Event, out: seq<Event>, rest: seq<Event>, m: nat, closed: set<VariantId>)
    requires decided.CaseDecided? && done.CleanupDone? && v2 == Step(Step(v, decided), done)
    requires m > 0 && out == [decided, done] + rest && 2 * (m - 1) <= |rest|
    requires ClosedOnly(v2, Fold(Step, v2, rest[..2 * (m - 1)]), closed)
    ensures ClosedOnly(v, Fold(Step, v, out[..2 * m]), {done.variant} + closed)
  {
    assert out[..2 * m] == [decided, done] + rest[..2 * (m - 1)];
    FoldTwo(Step, v, decided, done);
    FoldAppend(Step, v, [decided, done], rest[..2 * (m - 1)]);
  }

  ghost predicate ClosedOnly(v: View, v': View, closed: set<VariantId>) {
    && v'.phase == v.phase && v'.last == v.last && v'.intents == v.intents && v'.answered == v.answered
    && v'.cleaned.Keys == v.cleaned.Keys + closed
  }

  /** A first call whose doctor fails, cut off after it closed `k` variants. */
  lemma BlockedHistory(cfg: Config, k: nat) returns (v: View)
    requires ValidConfig(cfg) && k <= |cfg.variants|
    ensures Leads(cfg, [Invoke(FAILED_DOCTOR, 2 + 2 * k)], v)
    ensures Fresh(v) && v.last == None && v.cleaned.Keys == Elements(cfg.variants[..k])
  {
    var primary := DoctorFailure([]);
    var doctor, block := DoctorChecked(false, []), BlockFrom(cfg, START, primary, cfg.variants);
    BlockedFold(cfg, START, primary, cfg.variants, k);
    LeadsFirst(cfg, FAILED_DOCTOR, 1 + 2 * k);
    BehindDoctor(START, doctor, block.out, 2 * k);
    v := Fold(Step, START, block.out[..2 * k]);
  }

  /** A doctor record in front changes nothing. */
  lemma BehindDoctor(v: View, doctor: Event, out: seq<Event>, n: nat)
    requires doctor.DoctorChecked? && n <= |out|
    ensures Fold(Step, v, Cut([doctor] + out, 1 + n)) == Fold(Step, v, out[..n])
  {
    assert Cut([doctor] + out, 1 + n) == [doctor] + out[..n];
    FoldOne(Step, v, doctor);
    FoldAppend(Step, v, [doctor], out[..n]);
  }

  // ---- two open intents ----

  /** What the schema of a suite asks: every variant has an action. */
  ghost predicate HasActions(cfg: Config) {
    forall x :: x in cfg.variants ==> x in cfg.manifest && cfg.manifest[x].actions != []
  }

  ghost predicate AtMostOneOpen(v: View) {
    forall r, r' :: r in Unanswered(v) && r' in Unanswered(v) ==> r == r'
  }

  /**
   * The first call is cut off when `k` variants are closed, the next right behind the first intent of
   * variant `k`; then its retry is lost, and a second readback of the first attempt closes the variant.
   */
  ghost function TwoOpenActs(cfg: Config, k: nat): seq<Act>
    requires k < |cfg.variants|
  {
    var ref, ready := Ref(cfg.variants[k], 0, 1), ReadyCall(cfg, None);
    [Invoke(FAILED_DOCTOR, 2 + 2 * k)] + [Invoke(ready, 2)] + [Invoke(ready, 2)]
    + [Invoke(ReadyCall(cfg, Some(ReadbackResult(ref, Absent))), 3)]
    + [Invoke(ReadyCall(cfg, Some(ReadbackResult(ref, Applied))), 6)]
  }

  /** The first three calls: an intent of variant `k` waits for a readback. */
  lemma ReadbackAwaited(cfg: Config, k: nat) returns (v: View)
    requires ValidConfig(cfg) && HasActions(cfg) && k < |cfg.variants|
    ensures var ready := ReadyCall(cfg, None);
            Leads(cfg, [Invoke(FAILED_DOCTOR, 2 + 2 * k)] + [Invoke(ready, 2)] + [Invoke(ready, 2)], v)
    ensures v.phase == Some(Recovery) && v.last.Some? && v.last.value.ref == Some(Ref(cfg.variants[k], 0, 1))
    ensures v.answered == {} && v.cleaned.Keys == Elements(cfg.variants[..k])
  {
    var x, ready := cfg.variants[k], ReadyCall(cfg, None);
    var v1 := BlockedHistory(cfg, k);
    FirstOutsidePrefix(cfg.variants, k);
    var acts := [Invoke(FAILED_DOCTOR, 2 + 2 * k)];
    var intent := Intent(Ref(x, 0, 1), cfg.manifest[x].actions[0].id);
    LostFirst(cfg, v1, x, ready);
    LeadsOn(cfg, acts, v1, ready, 2);
    var v2 := v1.(intents := [intent]);
    EntersRecovery(cfg, v2, intent, ready);
    LeadsOn(cfg, acts + [Invoke(ready, 2)], v2, ready, 2);
    v := Fold(Step, v2, Cut(Advance(cfg, v2, ready).out, 2));
  }

  /** The history leaves two intents open when variant `k` needs no cleanup and is not the last. */
  lemma TwoOpenHistory(cfg: Config, k: nat) returns (v: View)
    requires ValidConfig(cfg) && HasActions(cfg) && k + 1 < |cfg.variants|
    requires !NeedsCleanup(cfg.manifest[cfg.variants[k]])
    ensures Leads(cfg, TwoOpenActs(cfg, k), v)
    ensures {Ref(cfg.variants[k], 0, 2), Ref(cfg.variants[k + 1], 0, 1)} <= Unanswered(v)
  {
    var ready := ReadyCall(cfg, None);
    var v3 := ReadbackAwaited(cfg, k);
    v := TwoReadbacks(cfg, k, [Invoke(FAILED_DOCTOR, 2 + 2 * k)] + [Invoke(ready, 2)] + [Invoke(ready, 2)], v3);
  }

  lemma TwoReadbacks(cfg: Config, k: nat, acts: seq<Act>, v: View) returns (v': View)
    requires ValidConfig(cfg) && HasActions(cfg) && k + 1 < |cfg.variants| && Leads(cfg, acts, v)
    requires !NeedsCleanup(cfg.manifest[cfg.variants[k]])
    requires v.phase == Some(Recovery) && v.last.Some? && v.last.value.ref == Some(Ref(cfg.variants[k], 0, 1))
    requires v.answered == {} && v.cleaned.Keys == Elements(cfg.variants[..k])
    ensures var ref := Ref(cfg.variants[k], 0, 1);
            Leads(cfg, acts + [Invoke(ReadyCall(cfg, Some(ReadbackResult(ref, Absent))), 3)]
                       + [Invoke(ReadyCall(cfg, Some(ReadbackResult(ref, Applied))), 6)], v')
    ensures {Ref(cfg.variants[k], 0, 2), Ref(cfg.variants[k + 1], 0, 1)} <= Unanswered(v')
  {
    var ref := Ref(cfg.variants[k], 0, 1);
    var v1 := RetryLost(cfg, acts, v, ref);
    v' := SecondReadback(cfg, k, acts + [Invoke(ReadyCall(cfg, Some(ReadbackResult(ref, Absent))), 3)], v1);
  }

  /** A readback finds nothing, and the crash falls between the retry's intent and its transition. */
  lemma RetryLost(cfg: Config, acts: seq<Act>, v: View, ref: Ref) returns (v': View)
    requires ValidConfig(cfg) && Leads(cfg, acts, v) && v.answered == {}
    requires v.phase == Some(Recovery) && v.last.Some? && v.last.value.ref == Some(ref)
    ensures Leads(cfg, acts + [Invoke(ReadyCall(cfg, Some(ReadbackResult(ref, Absent))), 3)], v')
    ensures v'.phase == Some(Recovery) && v'.last == v.last && v'.cleaned == v.cleaned
    ensures v'.answered == {ref} && ref.Retry() in Unanswered(v')
  {
    var absent := ReadyCall(cfg, Some(ReadbackResult(ref, Absent)));
    LeadsIsBasic(cfg, acts, v);
    LostRetry(cfg, v, ref, absent);
    LeadsOn(cfg, acts, v, absent, 3);
    v' := Fold(Step, v, Cut(Advance(cfg, v, absent).out, 3));
  }

  lemma SecondReadback(cfg: Config, k: nat, acts: seq<Act>, v: View) returns (v': View)
    requires ValidConfig(cfg) && HasActions(cfg) && k + 1 < |cfg.variants|
    requires !NeedsCleanup(cfg.manifest[cfg.variants[k]]) && Leads(cfg, acts, v)
    requires v.phase == Some(Recovery) && v.last.Some? && v.last.value.ref == Some(Ref(cfg.variants[k], 0, 1))
    requires v.answered == {Ref(cfg.variants[k], 0, 1)} && v.cleaned.Keys == Elements(cfg.variants[..k])
    requires Ref(cfg.variants[k], 0, 2) in Unanswered(v)
    ensures var applied := ReadyCall(cfg, Some(ReadbackResult(Ref(cfg.variants[k], 0, 1), Applied)));
            Leads(cfg, acts + [Invoke(applied, 6)], v')
    ensures {Ref(cfg.variants[k], 0, 2), Ref(cfg.variants[k + 1], 0, 1)} <= Unanswered(v')
  {
    var ref, y := Ref(cfg.variants[k], 0, 1), cfg.variants[k + 1];
    var applied := ReadyCall(cfg, Some(ReadbackResult(ref, Applied)));
    LeadsIsBasic(cfg, acts, v);
    ElementsSnoc(cfg.variants, k);
    FirstOutsidePrefix(cfg.variants, k + 1);
    ClosingCall(cfg, v, ref, y, applied);
    ExposeOut(cfg, applied, Ref(y, 0, 1), Recovery);
    assert |Advance(cfg, v, applied).out| == 6;
    WithoutCleanupTwoIntentsStayOpen(cfg, v, ref, y, applied);
    LeadsOn(cfg, acts, v, applied, 6);
    v' := Fold(Step, v, Advance(cfg, v, applied).out);
  }

  /**
   * At most one intent is open in every reachable journal if and only if every variant before the last
   * needs cleanup.
   */
  lemma OneOpenExactly(cfg: Config)
    requires ValidConfig(cfg) && HasActions(cfg)
    ensures (forall j :: Reachable(cfg, j) ==> AtMostOneOpen(ViewOf(j))) <==> CleansBeforeLast(cfg)
  {
    if CleansBeforeLast(cfg) {
      forall j | Reachable(cfg, j) ensures AtMostOneOpen(ViewOf(j)) {
        var acts :| History(cfg, acts) == Some(j);
        HistoryIsOrdered(cfg, acts);
      }
    } else {
      var k :| 0 <= k < |cfg.variants| - 1 && !NeedsCleanup(cfg.manifest[cfg.variants[k]]);
      var v := TwoOpenHistory(cfg, k);
      var j := History(cfg, TwoOpenActs(cfg, k)).value;
      assert Reachable(cfg, j);
      assert Ref(cfg.variants[k], 0, 2) in Unanswered(v) && Ref(cfg.variants[k + 1], 0, 1) in Unanswered(v);
      assert !AtMostOneOpen(ViewOf(j));
    }
  }

  // ---- an action that was never shown ----

  /** The first call, complete: the first action of the first variant waits for its receipt. */
  lemma FirstAction(cfg: Config) returns (v: View)
    requires ValidConfig(cfg) && HasActions(cfg) && cfg.variants != []
    ensures Leads(cfg, [Invoke(ReadyCall(cfg, None), 4)], v)
    ensures var ref := Ref(cfg.variants[0], 0, 1);
            && v.phase == Some(ActionRequired) && Shows(v, ref)
            && v.answered == {} && Declared(v) == {ref} && v.cleaned == map[] && v.cases == []
  {
    var ref, ready := Ref(cfg.variants[0], 0, 1), ReadyCall(cfg, None);
    var doctor, intent := DoctorChecked(true, []), Intent(ref, cfg.manifest[ref.variant].actions[0].id);
    var t := Transition(Preflight, ActionRequired, Some(ref.variant), Some(ref), None, None);
    ExposeOut(cfg, ready, ref, Preflight);
    var out := Begin(cfg, ready).out;
    assert Cut(out, 3) == [doctor, IntentDeclared(intent), Moved(t)];
    FoldThree(Step, START, doctor, IntentDeclared(intent), Moved(t));
    LeadsFirst(cfg, ready, 3);
    v := Fold(Step, START, Cut(out, 3));
    assert v.intents == [intent];
  }

  /** The second call, cut off behind the intent of the second action. */
  lemma UnshownAction(cfg: Config) returns (acts: seq<Act>, v: View)
    requires ValidConfig(cfg) && HasActions(cfg) && cfg.variants != []
    requires |cfg.manifest[cfg.variants[0]].actions| > 1
    ensures var receipt := ReadyCall(cfg, Some(ActionReceipt(Ref(cfg.variants[0], 0, 1), Completed)));
            acts == [Invoke(ReadyCall(cfg, None), 4)] + [Invoke(receipt, 3)] && Leads(cfg, acts, v)
    ensures v.phase == Some(ActionRequired) && Shows(v, Ref(cfg.variants[0], 0, 1)) && v.cleaned == map[]
    ensures Unanswered(v) == {Ref(cfg.variants[0], 1, 1)} && v.answered == {Ref(cfg.variants[0], 0, 1)}
    ensures Ref(cfg.variants[0], 0, 1) in v.receipts && v.receipts[Ref(cfg.variants[0], 0, 1)] == Completed
  {
    var ref := Ref(cfg.variants[0], 0, 1);
    var receipt := ReadyCall(cfg, Some(ActionReceipt(ref, Completed)));
    var v1 := FirstAction(cfg);
    acts := [Invoke(ReadyCall(cfg, None), 4)];
    PendingIs(v1, ref);
    LostTransitionLeavesUnshownAction(cfg, v1, ref, receipt);
    LeadsOn(cfg, acts, v1, receipt, 3);
    acts := acts + [Invoke(receipt, 3)];
    v := Fold(Step, v1, Cut(Advance(cfg, v1, receipt).out, 3));
  }

}
