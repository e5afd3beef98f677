/**
 * An event-level grammar of run journals. `Guard` says when an event may follow
 * a journal; every append of every call obeys it, so a call cut off after any
 * append leaves a journal inside the grammar.
 */
module LiveInvariant {
  import opened Common
  import opened LiveState
  import opened LiveJournal
  import opened LiveRunner

  /** What the suite selection guarantees: known variants, each listed once. */
  ghost predicate ValidConfig(cfg: Config) {
    && Distinct(cfg.variants)
    && (forall x :: x in cfg.variants ==> x in cfg.manifest)
  }

  /** Every variant of the run has an action that needs cleanup. */
  ghost predicate AlwaysCleans(cfg: Config) {
    forall x :: x in cfg.variants ==> x in cfg.manifest && NeedsCleanup(cfg.manifest[x])
  }

  predicate Settles(receipt: ReceiptOutcome) {
    receipt == Completed || receipt == NotApplied
  }

  /** Some attempt of action `index` was reported done. */
  ghost predicate ActionDone(v: View, variant: VariantId, index: int) {
    exists r :: r in v.receipts && r.variant == variant && r.index == index && Settles(v.receipts[r])
  }

  ghost predicate AllActionsDone(cfg: Config, v: View, variant: VariantId) {
    variant in cfg.manifest && ActionDone(v, variant, |cfg.manifest[variant].actions| - 1)
  }

  ghost predicate KnownRef(cfg: Config, ref: Ref) {
    && ref.variant in cfg.variants && ref.variant in cfg.manifest
    && ref.index < |cfg.manifest[ref.variant].actions|
    && ref.attempt >= 1
  }

  /** Why an intent may exist: its attempt and its place among the actions are justified. */
  ghost predicate Justified(cfg: Config, v: View, intent: Intent) {
    var ref := intent.ref;
    && KnownRef(cfg, ref)
    && intent.actionId == cfg.manifest[ref.variant].actions[ref.index].id
    && (ref.attempt > 1 ==> Ref(ref.variant, ref.index, ref.attempt - 1) in v.absent)
    && (ref.index > 0 ==> ActionDone(v, ref.variant, ref.index - 1))
  }

  /** `shown` is reported done and `ref` is a later action. */
  ghost predicate Behind(v: View, shown: Ref, ref: Ref) {
    shown in v.receipts && Settles(v.receipts[shown]) && shown.index < ref.index
  }

  ghost predicate GuardMove(cfg: Config, v: View, t: Transition) {
    && v.phase == Some(t.from) && Allowed(t.from, t.to)
    && ((t.to.ActionRequired? || t.to.Recovery?) ==>
          t.ref.Some? && t.ref.value in Declared(v) && t.variant == Some(t.ref.value.variant))
    && ((t.to.Waiting? || t.to.Assertion?) ==> t.variant.Some? && AllActionsDone(cfg, v, t.variant.value))
    && (t.to == Waiting ==> t.notBefore.Some?)
    && (t.to == Cleanup ==> t.variant.Some?)
    && (t.to == Complete ==> Active(cfg, v).None?)
    && (t.to.ActionRequired? || t.to.Waiting? || t.to.Recovery? || t.to.Assertion? ==>
          && t.variant.Some? && AtHand(cfg, v, t.variant.value)
          && (t.from.Preflight? || t.from.Cleanup? ==> Active(cfg, v).Some?))
  }

  /** The phases that serve one variant. */
  predicate AtWork(v: View) {
    || v.phase == Some(ActionRequired) || v.phase == Some(Waiting)
    || v.phase == Some(Recovery) || v.phase == Some(Assertion)
  }

  /** A variant that is closed as soon as it is decided. */
  predicate Light(cfg: Config, x: VariantId) {
    x in cfg.manifest && !NeedsCleanup(cfg.manifest[x])
  }

  /** Only closed variants and the active one leave traces. */
  predicate InReach(cfg: Config, v: View, x: VariantId) {
    x in v.cleaned || Some(x) == Active(cfg, v)
  }

  /** Work is done on the active variant, or on a closed one that needed no cleanup. */
  predicate AtHand(cfg: Config, v: View, x: VariantId) {
    Some(x) == Active(cfg, v) || (x in v.cleaned && Light(cfg, x))
  }

  ghost predicate Guard(cfg: Config, v: View, e: Event) {
    match e
    case DoctorChecked(_, _) => true
    case AssertionMade(_, _) => true
    case LedgerNote => true
    case IntentDeclared(intent) =>
      && v.phase != Some(Complete)
      && Justified(cfg, v, intent)
      && AtHand(cfg, v, intent.ref.variant)
      && (v.phase == Some(Preflight) ==> Active(cfg, v).Some?)
    case ReceiptTaken(ref, _) => ref in Declared(v) && ref !in v.answered && v.phase == Some(ActionRequired)
    case ReadbackTaken(ref, _) =>
      v.phase == Some(Recovery) && v.last.Some? && v.last.value.ref == Some(ref) && ref in Declared(v)
    case Moved(t) => GuardMove(cfg, v, t)
    case CaseDecided(variant, primary) =>
      && v.phase != Some(Complete)
      && variant in cfg.variants
      && (primary.result == Pass ==>
            v.phase == Some(Assertion) && v.last.Some? && v.last.value.variant == Some(variant))
      && InReach(cfg, v, variant)
    case CleanupDone(variant, _) =>
      && v.phase != Some(Complete)
      && Decided(v, variant) && InReach(cfg, v, variant)
      && (v.phase == Some(Preflight) ==> v.intents == [])
      && (v.phase == Some(Cleanup) ==> Unanswered(v) == {})
      && (AtWork(v) ==> Light(cfg, variant))
    case RunDecided(aggregate) => v.phase == Some(Complete) && aggregate == Report(cfg, v).aggregate
  }

  /** What the phase says about the last transition. */
  ghost predicate PhaseFacts(cfg: Config, v: View) {
    && v.phase.Some?
    && (v.last.None? <==> v.phase.value == Preflight)
    && (v.last.Some? ==> v.last.value.to == v.phase.value)
    && ((v.phase.value.ActionRequired? || v.phase.value.Recovery?) ==>
          v.last.value.ref.Some? && v.last.value.ref.value in Declared(v)
          && v.last.value.variant == Some(v.last.value.ref.value.variant))
    && ((v.phase.value.Waiting? || v.phase.value.Assertion?) ==>
          v.last.value.variant.Some? && AllActionsDone(cfg, v, v.last.value.variant.value))
    && (v.phase.value == Waiting ==> v.last.value.notBefore.Some?)
    && (v.phase.value == Cleanup ==> v.last.value.variant.Some?)
    && (v.phase.value == Complete ==> Active(cfg, v).None?)
  }

  /** Answers refer to intents, and every intent and cleanup has its cause. */
  ghost predicate Accounted(cfg: Config, v: View) {
    && v.receipts.Keys <= v.answered <= Declared(v)
    && v.absent <= v.answered
    && (forall i {:trigger Justified(cfg, v, i)} :: i in v.intents ==> Justified(cfg, v, i))
    && (forall c :: c in v.cases ==> c.variant in cfg.variants)
    && (forall x :: x in v.cleaned ==> Decided(v, x))
  }

  /** A recorded aggregate is the one the journal still yields. */
  ghost predicate Tallied(cfg: Config, v: View) {
    v.result.Some? ==> v.phase == Some(Complete) && v.result.value == Report(cfg, v).aggregate
  }

  /** Facts of every journal. */
  ghost predicate Basic(cfg: Config, v: View) {
    PhaseFacts(cfg, v) && Accounted(cfg, v) && Tallied(cfg, v)
  }

  /** Where the run stands among its variants, whatever their need for cleanup. */
  ghost predicate Located(cfg: Config, v: View) {
    && CleanedPrefix(cfg, v)
    && (forall c :: c in v.cases ==> InReach(cfg, v, c.variant))
    && (forall r :: r in Declared(v) ==> InReach(cfg, v, r.variant))
    && (forall r :: r in Unanswered(v) ==> AtHand(cfg, v, r.variant))
    && (v.phase == Some(Preflight) ==> v.answered == {} && (v.intents != [] ==> Active(cfg, v).Some?))
    && (AtWork(v) ==> v.last.Some? && v.last.value.variant.Some? && AtHand(cfg, v, v.last.value.variant.value))
    && (AtWork(v) && Active(cfg, v).None? ==> LastIsLight(cfg))
  }

  predicate LastIsLight(cfg: Config) {
    cfg.variants != [] && Light(cfg, cfg.variants[|cfg.variants| - 1])
  }

  ghost predicate CleanedPrefix(cfg: Config, v: View) {
    exists k :: 0 <= k <= |cfg.variants| && v.cleaned.Keys == Elements(cfg.variants[..k])
  }

  ghost function Elements<T>(s: seq<T>): set<T> {
    set x | x in s
  }

  ghost predicate Inv(cfg: Config, v: View) {
    Basic(cfg, v) && Located(cfg, v)
  }

  lemma StartHasInv(cfg: Config)
    ensures Inv(cfg, START)
  {
    assert cfg.variants[..0] == [];
    assert START.cleaned.Keys == Elements(cfg.variants[..0]);
  }

  /** The report depends on the case results and the cleanup results alone. */
  lemma SameReport(cfg: Config, v: View, v': View)
    requires v'.cases == v.cases && v'.cleaned == v.cleaned
    ensures Report(cfg, v') == Report(cfg, v)
  {
  }

  // ---- the active variant ----

  lemma {:induction false} FirstOutsidePrefix<T>(s: seq<T>, k: nat)
    requires Distinct(s) && k <= |s|
    ensures FirstOutside(s, Elements(s[..k])) == if k == |s| then None else Some(s[k])
    decreases |s|
  {
    FirstOutsideFrom(s, 0, k);
    assert s[0..] == s;
  }

  lemma {:induction false} FirstOutsideFrom<T>(s: seq<T>, i: nat, k: nat)
    requires Distinct(s) && i <= k <= |s|
    ensures FirstOutside(s[i..], Elements(s[..k])) == if k == |s| then None else Some(s[k])
    decreases k - i
  {
    var rest := s[i..];
    if i < k {
      assert s[i] in s[..k];
      assert rest[0] == s[i] && rest[1..] == s[i + 1..];
      FirstOutsideFrom(s, i + 1, k);
    } else if k < |s| {
      assert s[k] !in s[..k];
    }
  }

  lemma ElementsSnoc<T>(s: seq<T>, k: nat)
    requires k < |s|
    ensures Elements(s[..k + 1]) == Elements(s[..k]) + {s[k]}
  {
    assert s[..k + 1] == s[..k] + [s[k]];
  }

  // ---- the guard keeps the invariant ----

  lemma ActionDoneGrows(v: View, e: Event, variant: VariantId, index: int)
    requires ActionDone(v, variant, index)
    requires e.ReceiptTaken? ==> e.ref !in v.receipts
    ensures ActionDone(Step(v, e), variant, index)
  {
    var r :| r in v.receipts && r.variant == variant && r.index == index && Settles(v.receipts[r]);
    assert r in Step(v, e).receipts && Step(v, e).receipts[r] == v.receipts[r];
  }

  lemma JustifiedGrows(cfg: Config, v: View, e: Event, intent: Intent)
    requires Justified(cfg, v, intent)
    requires e.ReceiptTaken? ==> e.ref !in v.receipts
    ensures Justified(cfg, Step(v, e), intent)
  {
    if intent.ref.index > 0 {
      ActionDoneGrows(v, e, intent.ref.variant, intent.ref.index - 1);
    }
  }

  lemma DecidedGrows(v: View, e: Event, variant: VariantId)
    requires Decided(v, variant)
    ensures Decided(Step(v, e), variant)
  {
    var c :| c in v.cases && c.variant == variant;
    assert c in Step(v, e).cases;
  }

  lemma DeclaredStep(v: View, e: Event)
    ensures Declared(Step(v, e)) == Declared(v) + if e.IntentDeclared? then {e.intent.ref} else {}
  {
    if e.IntentDeclared? {
      var v' := Step(v, e);
      assert v'.intents == v.intents + [e.intent];
      forall i | i in v.intents ensures i in v'.intents { }
      assert e.intent in v'.intents;
    }
  }

  lemma KeepsAccounted(cfg: Config, v: View, e: Event)
    requires Accounted(cfg, v) && Guard(cfg, v, e)
    ensures Accounted(cfg, Step(v, e))
  {
    var v' := Step(v, e);
    DeclaredStep(v, e);
    forall i | i in v'.intents ensures Justified(cfg, v', i) {
      assert i in v.intents || (e.IntentDeclared? && i == e.intent);
      JustifiedGrows(cfg, v, e, i);
    }
    forall x | x in v'.cleaned ensures Decided(v', x) {
      assert x in v.cleaned || (e.CleanupDone? && x == e.variant);
      DecidedGrows(v, e, x);
    }
  }

  lemma KeepsTallied(cfg: Config, v: View, e: Event)
    requires Tallied(cfg, v) && Guard(cfg, v, e)
    ensures Tallied(cfg, Step(v, e))
  {
    if v.phase == Some(Complete) {
      SameReport(cfg, v, Step(v, e));
    }
  }

  lemma KeepsPhaseFacts(cfg: Config, v: View, e: Event)
    requires PhaseFacts(cfg, v) && v.receipts.Keys <= v.answered && Guard(cfg, v, e)
    ensures PhaseFacts(cfg, Step(v, e))
  {
    var v' := Step(v, e);
    DeclaredStep(v, e);
    assert e.ReceiptTaken? ==> e.ref !in v.receipts;
    if v'.phase == Some(Waiting) || v'.phase == Some(Assertion) {
      var x := v'.last.value.variant.value;
      ActionDoneGrows(v, e, x, |cfg.manifest[x].actions| - 1);
    }
  }

  lemma SameActive(cfg: Config, v: View, v': View)
    requires v'.cleaned.Keys == v.cleaned.Keys
    ensures Active(cfg, v') == Active(cfg, v)
    ensures forall x :: InReach(cfg, v, x) <==> InReach(cfg, v', x)
    ensures forall x :: AtHand(cfg, v, x) <==> AtHand(cfg, v', x)
  {
  }

  lemma KeepsLocatedOnIntent(cfg: Config, v: View, intent: Intent)
    requires Located(cfg, v) && Guard(cfg, v, IntentDeclared(intent))
    ensures Located(cfg, Step(v, IntentDeclared(intent)))
  {
    var v' := Step(v, IntentDeclared(intent));
    DeclaredStep(v, IntentDeclared(intent));
    SameActive(cfg, v, v');
    assert Unanswered(v') <= Unanswered(v) + {intent.ref};
  }

  lemma KeepsLocatedOnAnswer(cfg: Config, v: View, e: Event)
    requires Located(cfg, v) && Guard(cfg, v, e) && (e.ReceiptTaken? || e.ReadbackTaken?)
    ensures Located(cfg, Step(v, e))
  {
    DeclaredStep(v, e);
    SameActive(cfg, v, Step(v, e));
    assert Unanswered(Step(v, e)) <= Unanswered(v);
  }

  lemma KeepsLocatedOnMove(cfg: Config, v: View, t: Transition)
    requires Located(cfg, v) && GuardMove(cfg, v, t)
    ensures Located(cfg, Step(v, Moved(t)))
  {
    var v' := Step(v, Moved(t));
    SameActive(cfg, v, v');
    assert Declared(v') == Declared(v) && Unanswered(v') == Unanswered(v);
  }

  lemma KeepsLocatedOnCase(cfg: Config, v: View, x: VariantId, primary: PrimaryOutcome)
    requires Located(cfg, v) && InReach(cfg, v, x)
    ensures Located(cfg, Step(v, CaseDecided(x, primary)))
  {
    var v' := Step(v, CaseDecided(x, primary));
    SameActive(cfg, v, v');
    assert Declared(v') == Declared(v) && Unanswered(v') == Unanswered(v);
  }

  /** Closing the active variant leaves the rest of the suite, whose first variant is active next. */
  lemma CloseActive(cfg: Config, v: View, v': View, x: VariantId)
    requires Distinct(cfg.variants) && CleanedPrefix(cfg, v) && Some(x) == Active(cfg, v)
    requires v'.cleaned.Keys == v.cleaned.Keys + {x}
    ensures CleanedPrefix(cfg, v')
    ensures Active(cfg, v').None? ==> cfg.variants != [] && x == cfg.variants[|cfg.variants| - 1]
  {
    var k :| 0 <= k <= |cfg.variants| && v.cleaned.Keys == Elements(cfg.variants[..k]);
    PrefixActive(cfg, v, k);
    ElementsSnoc(cfg.variants, k);
    PrefixActive(cfg, v', k + 1);
  }

  lemma PrefixActive(cfg: Config, v: View, k: nat)
    requires Distinct(cfg.variants) && k <= |cfg.variants| && v.cleaned.Keys == Elements(cfg.variants[..k])
    ensures Active(cfg, v) == if k == |cfg.variants| then None else Some(cfg.variants[k])
  {
    FirstOutsidePrefix(cfg.variants, k);
  }

  lemma KeepsLocatedOnClose(cfg: Config, v: View, x: VariantId, cleanup: CleanupResult)
    requires ValidConfig(cfg) && v.phase.Some? && Located(cfg, v) && Guard(cfg, v, CleanupDone(x, cleanup))
    ensures Located(cfg, Step(v, CleanupDone(x, cleanup)))
  {
    var v' := Step(v, CleanupDone(x, cleanup));
    assert v'.cleaned.Keys == v.cleaned.Keys + {x};
    assert Declared(v') == Declared(v) && Unanswered(v') == Unanswered(v);
    if x in v.cleaned {
      assert v'.cleaned.Keys == v.cleaned.Keys;
      SameActive(cfg, v, v');
    } else {
      CloseActive(cfg, v, v', x);
      forall r | r in Unanswered(v') ensures AtHand(cfg, v', r.variant) {
        OpenAtWork(v, r);
      }
    }
  }

  /** Between phases nothing is open when a variant is closed. */
  lemma OpenAtWork(v: View, r: Ref)
    requires v.phase.Some? && v.phase != Some(Complete) && r in Unanswered(v)
    requires v.phase == Some(Preflight) ==> v.intents == []
    requires v.phase == Some(Cleanup) ==> Unanswered(v) == {}
    ensures AtWork(v)
  {
    match v.phase.value
    case Preflight =>
    case _ =>
  }

  lemma KeepsLocated(cfg: Config, v: View, e: Event)
    requires ValidConfig(cfg) && v.phase.Some? && Located(cfg, v) && Guard(cfg, v, e)
    ensures Located(cfg, Step(v, e))
  {
    match e
    case IntentDeclared(intent) => KeepsLocatedOnIntent(cfg, v, intent);
    case ReceiptTaken(_, _) => KeepsLocatedOnAnswer(cfg, v, e);
    case ReadbackTaken(_, _) => KeepsLocatedOnAnswer(cfg, v, e);
    case Moved(t) => KeepsLocatedOnMove(cfg, v, t);
    case CaseDecided(x, primary) => KeepsLocatedOnCase(cfg, v, x, primary);
    case CleanupDone(x, cleanup) => KeepsLocatedOnClose(cfg, v, x, cleanup);
    case RunDecided(_) => SameActive(cfg, v, Step(v, e));
    case _ =>
  }

  lemma KeepsInv(cfg: Config, v: View, e: Event)
    requires ValidConfig(cfg) && Inv(cfg, v) && Guard(cfg, v, e)
    ensures Inv(cfg, Step(v, e))
  {
    KeepsPhaseFacts(cfg, v, e);
    KeepsAccounted(cfg, v, e);
    KeepsTallied(cfg, v, e);
    KeepsLocated(cfg, v, e);
  }
}
