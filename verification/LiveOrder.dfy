/**
 * The order in which events may follow when every variant before the last needs cleanup: one variant is
 * at work at a time, and so is one intent.
 */
module LiveOrder {
  import opened Common
  import opened LiveState
  import opened LiveJournal
  import opened LiveRunner
  import opened LiveInvariant

  /** Every header variant but possibly the last has an action that needs cleanup. */
  ghost predicate CleansBeforeLast(cfg: Config) {
    forall k :: 0 <= k < |cfg.variants| - 1 ==>
      cfg.variants[k] in cfg.manifest && NeedsCleanup(cfg.manifest[cfg.variants[k]])
  }

  predicate IsLast(cfg: Config, x: VariantId) {
    cfg.variants != [] && x == cfg.variants[|cfg.variants| - 1]
  }

  /** The variant at work: the active one, or the last one when all are closed. */
  function Current(cfg: Config, v: View): Option<VariantId> {
    if Active(cfg, v).Some? || cfg.variants == [] then Active(cfg, v) else Some(cfg.variants[|cfg.variants| - 1])
  }

  /** The first attempt of a first action. */
  predicate First(ref: Ref) {
    ref.index == 0 && ref.attempt == 1
  }

  // ---- what may follow what ----

  ghost predicate OrderMove(cfg: Config, v: View, t: Transition) {
    && v.phase == Some(t.from) && Allowed(t.from, t.to)
    && (t.to.ActionRequired? || t.to.Waiting? || t.to.Recovery? || t.to.Assertion? ==> t.variant == Current(cfg, v))
    && (t.to.ActionRequired? ==>
          t.ref.Some? && Unanswered(v) <= {t.ref.value} && (t.ref.value in v.answered ==> t.ref.value in v.receipts))
    && (t.to.Recovery? ==>
          && t.ref.Some? && Unanswered(v) <= {t.ref.value, t.ref.value.Retry()}
          && (t.ref.value in v.receipts || First(t.ref.value)))
    && (t.to.Waiting? || t.to.Assertion? ==> Unanswered(v) == {})
    && (t.to.Cleanup? && !t.from.Cleanup? && Active(cfg, v).Some? ==> Decided(v, Active(cfg, v).value))
  }

  ghost predicate OrderIntent(cfg: Config, v: View, ref: Ref) {
    && Unanswered(v) <= {ref} && Some(ref.variant) == Current(cfg, v)
    && v.phase != Some(Waiting) && v.phase != Some(Assertion)
    && (v.phase == Some(Preflight) ==> First(ref))
    && (v.phase == Some(Recovery) ==>
          v.last.Some? && v.last.value.ref.Some? && ref == v.last.value.ref.value.Retry())
    && (v.phase == Some(ActionRequired) ==>
          v.last.Some? && v.last.value.ref.Some? && Behind(v, v.last.value.ref.value, ref))
  }

  ghost predicate Order(cfg: Config, v: View, e: Event) {
    match e
    case IntentDeclared(intent) => OrderIntent(cfg, v, intent.ref)
    case ReceiptTaken(ref, _) => v.phase == Some(ActionRequired) && ref in Unanswered(v)
    case ReadbackTaken(ref, _) => v.phase == Some(Recovery) && v.last.Some? && v.last.value.ref == Some(ref)
    case Moved(t) => OrderMove(cfg, v, t)
    case CaseDecided(x, _) => Some(x) == Current(cfg, v)
    case CleanupDone(x, _) =>
      && Some(x) == Current(cfg, v)
      && (IsLast(cfg, x) || ((v.phase == Some(Preflight) || v.phase == Some(Cleanup)) && Unanswered(v) == {}))
    case _ => true
  }

  // ---- what stays true ----

  /** One intent is open at most, it belongs to the variant at work, and the phase says which it can be. */
  ghost predicate Lined(cfg: Config, v: View) {
    && (forall r, r' :: r in Unanswered(v) && r' in Unanswered(v) ==> r == r')
    && (forall r :: r in Unanswered(v) ==> Some(r.variant) == Current(cfg, v))
    && (v.phase == Some(Waiting) || v.phase == Some(Assertion) ==> Unanswered(v) == {})
    && (v.phase == Some(Recovery) ==>
          v.last.Some? && v.last.value.ref.Some?
          && Unanswered(v) <= {v.last.value.ref.value, v.last.value.ref.value.Retry()})
    && (v.phase == Some(ActionRequired) ==>
          v.last.Some? && v.last.value.ref.Some?
          && forall r :: r in Unanswered(v) ==> r == v.last.value.ref.value || Behind(v, v.last.value.ref.value, r))
  }

  /** The phase serves the variant at work. */
  ghost predicate Serving(cfg: Config, v: View) {
    AtWork(v) ==> v.last.Some? && v.last.value.variant == Current(cfg, v)
  }

  /** How answers came about: by a receipt, or by a readback of a run's first action. */
  ghost predicate Sourced(cfg: Config, v: View) {
    && (v.phase == Some(Preflight) ==> v.answered == {} && forall i :: i in v.intents ==> First(i.ref))
    && (forall r :: r in v.answered ==> r in v.receipts || First(r))
    && (v.phase == Some(ActionRequired) && v.last.Some? && v.last.value.ref.Some? ==>
          v.last.value.ref.value in v.answered ==> v.last.value.ref.value in v.receipts)
    && (v.phase == Some(Recovery) && v.last.Some? && v.last.value.ref.Some? ==>
          v.last.value.ref.value in v.receipts || First(v.last.value.ref.value))
    && (v.phase == Some(Cleanup) ==> forall r :: r in v.answered ==> r.variant in v.cleaned || Decided(v, r.variant))
  }

  ghost predicate Ordered(cfg: Config, v: View) {
    CleanedPrefix(cfg, v) && Lined(cfg, v) && Serving(cfg, v) && Sourced(cfg, v)
  }

  lemma StartIsOrdered(cfg: Config)
    ensures Ordered(cfg, START)
  {
    assert cfg.variants[..0] == [];
    assert START.cleaned.Keys == Elements(cfg.variants[..0]);
  }

  // ---- the variant at work ----

  lemma SameCurrent(cfg: Config, v: View, v': View)
    requires v'.cleaned.Keys == v.cleaned.Keys
    ensures Active(cfg, v') == Active(cfg, v) && Current(cfg, v') == Current(cfg, v)
  {
  }

  lemma ActiveIsListed(cfg: Config, v: View)
    ensures Active(cfg, v).Some? ==> Active(cfg, v).value in cfg.variants && Active(cfg, v).value !in v.cleaned
    ensures Active(cfg, v).None? ==> forall x :: x in cfg.variants ==> x in v.cleaned
    ensures Current(cfg, v).Some? ==> Current(cfg, v).value in cfg.variants
  {
  }

  /** Without the need for cleanup, the variant at work is the last one. */
  lemma UncleanedIsLast(cfg: Config, x: VariantId)
    requires CleansBeforeLast(cfg) && x in cfg.variants && x in cfg.manifest && !NeedsCleanup(cfg.manifest[x])
    ensures IsLast(cfg, x)
  {
    var k :| 0 <= k < |cfg.variants| && cfg.variants[k] == x;
  }

  /** Closing the last variant leaves it the variant at work. */
  lemma CloseLast(cfg: Config, v: View, v': View, x: VariantId)
    requires Distinct(cfg.variants) && CleanedPrefix(cfg, v) && IsLast(cfg, x) && Some(x) == Current(cfg, v)
    requires v'.cleaned.Keys == v.cleaned.Keys + {x}
    ensures Active(cfg, v').None? && Current(cfg, v') == Some(x) && CleanedPrefix(cfg, v')
  {
    var n := |cfg.variants|;
    if Active(cfg, v).Some? {
      CloseActive(cfg, v, v', x);
      var k :| 0 <= k <= n && v.cleaned.Keys == Elements(cfg.variants[..k]);
      FirstOutsidePrefix(cfg.variants, k);
      assert k == n - 1;
      ElementsSnoc(cfg.variants, k);
      assert v'.cleaned.Keys == Elements(cfg.variants[..n]);
      FirstOutsidePrefix(cfg.variants, n);
    } else {
      ActiveIsListed(cfg, v);
      assert v'.cleaned.Keys == v.cleaned.Keys;
      SameCurrent(cfg, v, v');
    }
  }

  // ---- each event keeps the order ----

  lemma IntentKeepsOrder(cfg: Config, v: View, intent: Intent)
    requires Ordered(cfg, v) && OrderIntent(cfg, v, intent.ref)
    ensures Ordered(cfg, Step(v, IntentDeclared(intent)))
  {
    var v' := Step(v, IntentDeclared(intent));
    DeclaredStep(v, IntentDeclared(intent));
    SameCurrent(cfg, v, v');
    assert Unanswered(v') <= {intent.ref};
  }

  lemma ReceiptKeepsOrder(cfg: Config, v: View, ref: Ref, receipt: ReceiptOutcome)
    requires Ordered(cfg, v) && v.phase == Some(ActionRequired) && ref in Unanswered(v)
    ensures Ordered(cfg, Step(v, ReceiptTaken(ref, receipt)))
    ensures Unanswered(Step(v, ReceiptTaken(ref, receipt))) == {}
  {
    var v' := Step(v, ReceiptTaken(ref, receipt));
    DeclaredStep(v, ReceiptTaken(ref, receipt));
    SameCurrent(cfg, v, v');
    forall r ensures r !in Unanswered(v') {
      if r in Unanswered(v) {
        assert r == ref;
      }
    }
  }

  lemma ReadbackKeepsOrder(cfg: Config, v: View, ref: Ref, readback: ReadbackOutcome)
    requires Ordered(cfg, v) && v.phase == Some(Recovery) && v.last.Some? && v.last.value.ref == Some(ref)
    ensures Ordered(cfg, Step(v, ReadbackTaken(ref, readback)))
    ensures Unanswered(Step(v, ReadbackTaken(ref, readback))) <= {ref.Retry()}
  {
    var v' := Step(v, ReadbackTaken(ref, readback));
    DeclaredStep(v, ReadbackTaken(ref, readback));
    SameCurrent(cfg, v, v');
    assert Unanswered(v') <= Unanswered(v);
  }

  lemma MoveKeepsLined(cfg: Config, v: View, t: Transition)
    requires Lined(cfg, v) && OrderMove(cfg, v, t)
    ensures Lined(cfg, Step(v, Moved(t)))
  {
    var v' := Step(v, Moved(t));
    SameCurrent(cfg, v, v');
    assert Unanswered(v') == Unanswered(v);
  }

  lemma MoveKeepsSourced(cfg: Config, v: View, t: Transition)
    requires Located(cfg, v) && Sourced(cfg, v) && OrderMove(cfg, v, t) && v.answered <= Declared(v)
    ensures Sourced(cfg, Step(v, Moved(t)))
  {
    var v' := Step(v, Moved(t));
    if t.to.Cleanup? && !t.from.Cleanup? {
      ActiveIsListed(cfg, v);
      forall r | r in v'.answered ensures r.variant in v'.cleaned || Decided(v', r.variant) {
        assert r in Declared(v);
      }
    }
  }

  lemma MoveKeepsOrder(cfg: Config, v: View, t: Transition)
    requires Located(cfg, v) && Ordered(cfg, v) && OrderMove(cfg, v, t) && v.answered <= Declared(v)
    ensures Ordered(cfg, Step(v, Moved(t)))
  {
    MoveKeepsLined(cfg, v, t);
    MoveKeepsSourced(cfg, v, t);
    SameCurrent(cfg, v, Step(v, Moved(t)));
  }

  lemma CaseKeepsOrder(cfg: Config, v: View, x: VariantId, primary: PrimaryOutcome)
    requires Ordered(cfg, v) && Some(x) == Current(cfg, v)
    ensures Ordered(cfg, Step(v, CaseDecided(x, primary)))
  {
    var v' := Step(v, CaseDecided(x, primary));
    SameCurrent(cfg, v, v');
    assert Unanswered(v') == Unanswered(v);
    forall r | r in v.answered && Decided(v, r.variant) ensures Decided(v', r.variant) {
      DecidedGrows(v, CaseDecided(x, primary), r.variant);
    }
  }

  /** Closing a variant that is not the last, between phases. */
  lemma CloseEarly(cfg: Config, v: View, x: VariantId, cleanup: CleanupResult)
    requires ValidConfig(cfg) && Ordered(cfg, v) && Some(x) == Current(cfg, v) && !IsLast(cfg, x)
    requires (v.phase == Some(Preflight) || v.phase == Some(Cleanup)) && Unanswered(v) == {}
    ensures Ordered(cfg, Step(v, CleanupDone(x, cleanup)))
  {
    var v' := Step(v, CleanupDone(x, cleanup));
    assert Active(cfg, v) == Some(x);
    assert v'.cleaned.Keys == v.cleaned.Keys + {x};
    CloseActive(cfg, v, v', x);
    assert Unanswered(v') == {};
    assert Declared(v') == Declared(v);
  }

  /** Closing the last variant, whatever the phase. */
  lemma CloseLate(cfg: Config, v: View, x: VariantId, cleanup: CleanupResult)
    requires ValidConfig(cfg) && Ordered(cfg, v) && Some(x) == Current(cfg, v) && IsLast(cfg, x)
    ensures Ordered(cfg, Step(v, CleanupDone(x, cleanup)))
  {
    var v' := Step(v, CleanupDone(x, cleanup));
    assert v'.cleaned.Keys == v.cleaned.Keys + {x};
    CloseLast(cfg, v, v', x);
    assert Unanswered(v') == Unanswered(v);
    assert Declared(v') == Declared(v);
  }

  lemma KeepsOrder(cfg: Config, v: View, e: Event)
    requires ValidConfig(cfg) && Inv(cfg, v) && Ordered(cfg, v) && Order(cfg, v, e)
    ensures Ordered(cfg, Step(v, e))
  {
    match e
    case IntentDeclared(intent) => IntentKeepsOrder(cfg, v, intent);
    case ReceiptTaken(ref, receipt) => ReceiptKeepsOrder(cfg, v, ref, receipt);
    case ReadbackTaken(ref, readback) => ReadbackKeepsOrder(cfg, v, ref, readback);
    case Moved(t) => MoveKeepsOrder(cfg, v, t);
    case CaseDecided(x, primary) => CaseKeepsOrder(cfg, v, x, primary);
    case CleanupDone(x, cleanup) =>
      if IsLast(cfg, x) {
        CloseLate(cfg, v, x, cleanup);
      } else {
        CloseEarly(cfg, v, x, cleanup);
      }
    case RunDecided(aggregate) =>
      SameCurrent(cfg, v, Step(v, e));
      assert Unanswered(Step(v, e)) == Unanswered(v);
    case _ =>
  }
}
