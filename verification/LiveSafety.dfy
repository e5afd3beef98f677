/**
 * What holds of every journal of every run, with a crash after any append.
 */
module LiveSafety {
  import opened Common
  import opened LiveState
  import opened LiveJournal
  import opened LiveRunner
  import opened LiveInvariant
  import opened LiveGuarded
  import opened Traces

  /**
   * One thing that happens to a run: the coordinator creates the journal or adds
   * a record of its own, or the runner is called and dies after `cut` writes
   * (a large `cut` lets the call finish; on a missing journal the first write is
   * the header).
   */
  datatype Act = Create | Note | Invoke(req: Request, cut: nat)

  function Cut(out: seq<Event>, cut: nat): seq<Event> {
    if cut < |out| then out[..cut] else out
  }

  ghost function Apply(cfg: Config, state: Option<Journal>, act: Act): Option<Journal> {
    match (state, act)
    case (None, Create) => Some([])
    case (None, Note) => None
    case (None, Invoke(req, cut)) =>
      if cut == 0 || !req.admitted || req.signal.Some? then None
      else Some(Cut(Begin(cfg, req).out, cut - 1))
    case (Some(j), Create) => Some(j)
    case (Some(j), Note) => Some(j + [LedgerNote])
    case (Some(j), Invoke(req, cut)) => Some(j + Cut(Advance(cfg, ViewOf(j), req).out, cut))
  }

  /** The journal after a history, if there is one yet. */
  ghost function History(cfg: Config, acts: seq<Act>): Option<Journal> {
    if acts == [] then None
    else Apply(cfg, History(cfg, acts[..|acts| - 1]), acts[|acts| - 1])
  }

  ghost predicate Reachable(cfg: Config, j: Journal) {
    exists acts :: History(cfg, acts) == Some(j)
  }

  /** Every event obeys the grammar where it stands. */
  ghost predicate Legal(cfg: Config, j: Journal) {
    Trace(Step, START, GuardOf(cfg), j)
  }

  lemma LegalHasInv(cfg: Config, j: Journal)
    requires ValidConfig(cfg) && Legal(cfg, j)
    ensures Inv(cfg, ViewOf(j))
  {
    StartHasInv(cfg);
    var inv := (v: View) => Inv(cfg, v);
    forall v, e | inv(v) && GuardOf(cfg)(v, e) ensures inv(Step(v, e)) {
      KeepsInv(cfg, v, e);
    }
    TraceKeeps(Step, START, GuardOf(cfg), inv, j);
  }

  lemma LegalAt(cfg: Config, j: Journal, i: nat)
    requires ValidConfig(cfg) && Legal(cfg, j) && i < |j|
    ensures Guard(cfg, ViewOf(j[..i]), j[i]) && Inv(cfg, ViewOf(j[..i]))
  {
    TracePrefix(Step, START, GuardOf(cfg), j, i);
    LegalHasInv(cfg, j[..i]);
    assert GuardOf(cfg)(ViewOf(j[..i]), j[i]);
  }

  lemma ApplyLegal(cfg: Config, j: Journal, act: Act)
    requires ValidConfig(cfg) && Legal(cfg, j)
    ensures Apply(cfg, Some(j), act).Some? && Legal(cfg, Apply(cfg, Some(j), act).value)
  {
    match act
    case Create =>
    case Note => TraceSnoc(Step, START, GuardOf(cfg), j, LedgerNote);
    case Invoke(req, cut) =>
      LegalHasInv(cfg, j);
      AdvanceGuarded(cfg, ViewOf(j), req);
      var out := Advance(cfg, ViewOf(j), req).out;
      TraceAppend(Step, START, GuardOf(cfg), j, out, |Cut(out, cut)|);
      assert out[..|Cut(out, cut)|] == Cut(out, cut);
  }

  /** Whatever happens, and wherever calls are cut, the journal stays in the grammar. */
  lemma {:induction false} HistoryLegal(cfg: Config, acts: seq<Act>)
    requires ValidConfig(cfg)
    ensures History(cfg, acts).Some? ==> Legal(cfg, History(cfg, acts).value)
    decreases |acts|
  {
    if acts != [] {
      HistoryLegal(cfg, acts[..|acts| - 1]);
      var before, act := History(cfg, acts[..|acts| - 1]), acts[|acts| - 1];
      if before.Some? {
        ApplyLegal(cfg, before.value, act);
      } else if act.Invoke? && act.cut > 0 && act.req.admitted && act.req.signal.None? {
        BeginGuarded(cfg, act.req);
        var out := Begin(cfg, act.req).out;
        TraceAppend(Step, START, GuardOf(cfg), [], out, |Cut(out, act.cut - 1)|);
        assert [] + out[..|Cut(out, act.cut - 1)|] == Cut(out, act.cut - 1);
      }
    }
  }

  lemma ReachableLegal(cfg: Config, j: Journal)
    requires ValidConfig(cfg) && Reachable(cfg, j)
    ensures Legal(cfg, j) && Inv(cfg, ViewOf(j))
  {
    var acts :| History(cfg, acts) == Some(j);
    HistoryLegal(cfg, acts);
    LegalHasInv(cfg, j);
  }

  lemma {:induction false} GuardedKeepsInv(cfg: Config, v: View, out: seq<Event>)
    requires ValidConfig(cfg) && Inv(cfg, v) && Guarded(cfg, v, out)
    ensures Inv(cfg, Fold(Step, v, out))
    decreases |out|
  {
    if out != [] {
      KeepsInv(cfg, v, out[0]);
      GuardedKeepsInv(cfg, Step(v, out[0]), out[1..]);
      FoldOne(Step, v, out[0]);
      FoldAppend(Step, v, [out[0]], out[1..]);
      assert [out[0]] + out[1..] == out;
    }
  }

  /** A call, cut off anywhere, keeps the invariant. */
  lemma CallKeepsInv(cfg: Config, v: View, req: Request, cut: nat)
    requires ValidConfig(cfg) && Inv(cfg, v)
    ensures Inv(cfg, Fold(Step, v, Cut(Advance(cfg, v, req).out, cut)))
  {
    var out := Advance(cfg, v, req).out;
    AdvanceGuarded(cfg, v, req);
    if cut < |out| {
      CutContinues(Step, GuardOf(cfg), v, out, cut);
    }
    GuardedKeepsInv(cfg, v, Cut(out, cut));
  }

  /** The last of the later acts. */
  lemma LaterSnoc(cfg: Config, acts: seq<Act>, later: seq<Act>)
    requires later != []
    ensures History(cfg, acts + later)
            == Apply(cfg, History(cfg, acts + later[..|later| - 1]), later[|later| - 1])
  {
    assert (acts + later)[..|acts + later| - 1] == acts + later[..|later| - 1];
  }

  // ---- from the view back to the journal ----

  lemma {:induction false} FindIntent(j: Journal, ref: Ref) returns (p: nat)
    requires ref in Declared(ViewOf(j))
    ensures p < |j| && j[p].IntentDeclared? && j[p].intent.ref == ref
    decreases |j|
  {
    ViewLast(j);
    var init, e := j[..|j| - 1], j[|j| - 1];
    DeclaredStep(ViewOf(init), e);
    if e.IntentDeclared? && e.intent.ref == ref {
      p := |j| - 1;
    } else {
      p := FindIntent(init, ref);
    }
  }

  lemma {:induction false} FindReceipt(j: Journal, ref: Ref) returns (q: nat)
    requires ref in ViewOf(j).receipts
    ensures q < |j| && j[q] == ReceiptTaken(ref, ViewOf(j).receipts[ref])
    decreases |j|
  {
    ViewLast(j);
    var init, e := j[..|j| - 1], j[|j| - 1];
    if e.ReceiptTaken? && e.ref == ref {
      q := |j| - 1;
    } else {
      q := FindReceipt(init, ref);
    }
  }

  lemma {:induction false} FindAbsent(j: Journal, ref: Ref) returns (m: nat)
    requires ref in ViewOf(j).absent
    ensures m < |j| && j[m] == ReadbackTaken(ref, Absent)
    decreases |j|
  {
    ViewLast(j);
    var init, e := j[..|j| - 1], j[|j| - 1];
    if e == ReadbackTaken(ref, Absent) {
      m := |j| - 1;
    } else {
      m := FindAbsent(init, ref);
    }
  }

  lemma {:induction false} FindLastMove(j: Journal) returns (t: nat)
    requires ViewOf(j).last.Some?
    ensures t < |j| && j[t] == Moved(ViewOf(j).last.value)
    ensures forall k :: t < k < |j| ==> !j[k].Moved?
    decreases |j|
  {
    ViewLast(j);
    var init, e := j[..|j| - 1], j[|j| - 1];
    if e.Moved? {
      t := |j| - 1;
    } else {
      t := FindLastMove(init);
    }
  }

  lemma {:induction false} AnsweredSince(j: Journal, m: nat)
    requires m < |j| && (j[m].ReceiptTaken? || j[m].ReadbackTaken?)
    ensures j[m].ref in ViewOf(j).answered
    decreases |j|
  {
    ViewLast(j);
    if m < |j| - 1 {
      AnsweredSince(j[..|j| - 1], m);
    }
  }

  // ---- one mutation at a time ----

  /** A retry is declared only after a readback showed that the attempt before it left nothing. */
  lemma RetryFollowsAbsentReadback(cfg: Config, j: Journal, i: nat)
    requires ValidConfig(cfg) && Reachable(cfg, j)
    requires i < |j| && j[i].IntentDeclared? && j[i].intent.ref.attempt > 1
    ensures exists m :: 0 <= m < i && j[m].ReadbackTaken? && j[m].ref.Retry() == j[i].intent.ref
                        && j[m].readback == Absent
  {
    ReachablePoints(cfg, j);
    assert LegalPoint(cfg, j, i);
    var ref := j[i].intent.ref;
    var m := FindAbsent(j[..i], Ref(ref.variant, ref.index, ref.attempt - 1));
    assert j[m] == j[..i][m];
  }

  /** A receipt answers a declared intent that nothing answered before: no intent gets two. */
  lemma ReceiptsAreUnique(cfg: Config, j: Journal, i: nat)
    requires ValidConfig(cfg) && Reachable(cfg, j)
    requires i < |j| && j[i].ReceiptTaken?
    ensures exists p :: 0 <= p < i && j[p].IntentDeclared? && j[p].intent.ref == j[i].ref
    ensures forall m :: 0 <= m < i && (j[m].ReceiptTaken? || j[m].ReadbackTaken?) ==> j[m].ref != j[i].ref
  {
    ReachablePoints(cfg, j);
    assert LegalPoint(cfg, j, i);
    var p := FindIntent(j[..i], j[i].ref);
    assert j[p] == j[..i][p];
    forall m | 0 <= m < i && (j[m].ReceiptTaken? || j[m].ReadbackTaken?) ensures j[m].ref != j[i].ref {
      AnsweredSince(j[..i], m);
    }
  }

  // ---- a pass is earned ----

  /** Actions 0..n-1 of `variant` were each declared and then reported done, one after the other, before `bound`. */
  ghost predicate DoneInOrder(j: Journal, variant: VariantId, n: nat, bound: int)
    requires bound <= |j|
    decreases n
  {
    n == 0 ||
    exists p, q {:trigger DoneAt(j, variant, n - 1, p, q)} ::
      0 <= p < q < bound && DoneAt(j, variant, n - 1, p, q) && DoneInOrder(j, variant, n - 1, p)
  }

  ghost predicate DoneAt(j: Journal, variant: VariantId, index: nat, p: int, q: int)
    requires 0 <= p < q < |j|
  {
    && j[p].IntentDeclared? && j[p].intent.ref.variant == variant && j[p].intent.ref.index == index
    && j[q].ReceiptTaken? && j[q].ref == j[p].intent.ref && Settles(j[q].receipt)
  }

  ghost predicate LegalPoint(cfg: Config, j: Journal, i: int)
    requires 0 <= i < |j|
  {
    Guard(cfg, ViewOf(j[..i]), j[i])
  }

  /** The grammar, point by point. */
  ghost predicate LegalPoints(cfg: Config, j: Journal) {
    forall i :: 0 <= i < |j| ==> LegalPoint(cfg, j, i)
  }

  lemma ReachablePoints(cfg: Config, j: Journal)
    requires ValidConfig(cfg) && Reachable(cfg, j)
    ensures LegalPoints(cfg, j)
  {
    ReachableLegal(cfg, j);
    forall i | 0 <= i < |j| ensures LegalPoint(cfg, j, i) {
      LegalAt(cfg, j, i);
    }
  }

  lemma {:induction false} DoneChain(cfg: Config, j: Journal, variant: VariantId, n: nat, bound: nat)
    requires LegalPoints(cfg, j) && bound <= |j|
    requires n > 0 ==> ActionDone(ViewOf(j[..bound]), variant, n - 1)
    ensures DoneInOrder(j, variant, n, bound)
    decreases n
  {
    if n > 0 {
      var p, q := DoneStep(cfg, j, variant, n - 1, bound);
      DoneChain(cfg, j, variant, n - 1, p);
      DoneBefore(j, variant, n, bound, p, q);
    }
  }

  lemma DoneBefore(j: Journal, variant: VariantId, n: nat, bound: int, p: nat, q: nat)
    requires n > 0 && p < q < bound <= |j| && DoneAt(j, variant, n - 1, p, q) && DoneInOrder(j, variant, n - 1, p)
    ensures DoneInOrder(j, variant, n, bound)
  {
  }

  /** The intent and the receipt of one action that is done, and the action before it. */
  lemma DoneStep(cfg: Config, j: Journal, variant: VariantId, index: nat, bound: nat) returns (p: nat, q: nat)
    requires LegalPoints(cfg, j) && bound <= |j| && ActionDone(ViewOf(j[..bound]), variant, index)
    ensures p < q < bound && DoneAt(j, variant, index, p, q)
    ensures index > 0 ==> ActionDone(ViewOf(j[..p]), variant, index - 1)
  {
    var view := ViewOf(j[..bound]);
    var r :| r in view.receipts && r.variant == variant && r.index == index && Settles(view.receipts[r]);
    q := FindReceipt(j[..bound], r);
    assert LegalPoint(cfg, j, q);
    p := FindIntent(j[..q], r);
    assert LegalPoint(cfg, j, p);
  }

  /** The last case result of a variant. */
  ghost function LastRow(cases: seq<CaseRow>, variant: VariantId): Option<PrimaryOutcome> {
    if cases == [] then None
    else if cases[|cases| - 1].variant == variant then Some(cases[|cases| - 1].primary)
    else LastRow(cases[..|cases| - 1], variant)
  }

  lemma {:induction false} ReportSeesLastRow(cases: seq<CaseRow>, cleaned: map<VariantId, CleanupResult>, x: VariantId)
    ensures var c := LastCase(Outcomes(cases, cleaned), x);
            LastRow(cases, x) == if c.Some? then Some(c.value.primary) else None
    decreases |cases|
  {
    if cases != [] {
      var o := Outcomes(cases, cleaned);
      assert o[..|o| - 1] == Outcomes(cases[..|cases| - 1], cleaned);
      ReportSeesLastRow(cases[..|cases| - 1], cleaned, x);
    }
  }

  lemma {:induction false} FindLastRow(j: Journal, x: VariantId) returns (i: nat)
    requires LastRow(ViewOf(j).cases, x).Some?
    ensures i < |j| && j[i] == CaseDecided(x, LastRow(ViewOf(j).cases, x).value)
    ensures forall k :: i < k < |j| ==> !(j[k].CaseDecided? && j[k].variant == x)
    decreases |j|
  {
    ViewLast(j);
    var init, e := j[..|j| - 1], j[|j| - 1];
    if e.CaseDecided? && e.variant == x {
      i := |j| - 1;
    } else {
      if e.CaseDecided? {
        assert ViewOf(j).cases[..|ViewOf(j).cases| - 1] == ViewOf(init).cases;
      }
      i := FindLastRow(init, x);
    }
  }

  /** The assertion phase behind a pass at position `i`. */
  lemma FindAssertion(cfg: Config, j: Journal, i: nat) returns (t: nat)
    requires ValidConfig(cfg) && Legal(cfg, j)
    requires i < |j| && j[i].CaseDecided? && j[i].primary.result == Pass
    ensures t < i && j[t].Moved? && j[t].move.to == Assertion && j[t].move.variant == Some(j[i].variant)
    ensures forall k :: t < k < i ==> !j[k].Moved?
    ensures AllActionsDone(cfg, ViewOf(j[..t]), j[i].variant)
  {
    LegalAt(cfg, j, i);
    t := FindLastMove(j[..i]);
    assert j[t] == j[..i][t];
    LegalAt(cfg, j, t);
    forall k | t < k < i ensures !j[k].Moved? { assert j[k] == j[..i][k]; }
  }

  /** A case result that an assertion phase produced after every action was done, in order. */
  ghost predicate EarnedAt(cfg: Config, j: Journal, variant: VariantId, t: int, i: int)
    requires 0 <= t < i < |j|
  {
    && j[t].Moved? && j[t].move.to == Assertion && j[t].move.variant == Some(variant)
    && (forall k :: t < k < i ==> !j[k].Moved?)
    && variant in cfg.manifest
    && DoneInOrder(j, variant, |cfg.manifest[variant].actions|, t)
  }

  /**
   * A variant that the report passes got its last verdict in an assertion phase, and that phase was
   * entered after every action, in order, had been declared and reported done.
   */
  lemma PassIsEarned(cfg: Config, j: Journal, c: CaseOutcome)
    requires ValidConfig(cfg) && Reachable(cfg, j)
    requires c in Report(cfg, ViewOf(j)).cases && c.primary.result == Pass
    ensures exists t, i :: 0 <= t < i < |j|
                           && j[i] == CaseDecided(c.variant, c.primary)
                           && (forall k :: i < k < |j| ==> !(j[k].CaseDecided? && j[k].variant == c.variant))
                           && EarnedAt(cfg, j, c.variant, t, i)
  {
    ReachableLegal(cfg, j);
    ReportsLastCases(cfg.variants, Outcomes(ViewOf(j).cases, ViewOf(j).cleaned));
    ReportSeesLastRow(ViewOf(j).cases, ViewOf(j).cleaned, c.variant);
    var i := FindLastRow(j, c.variant);
    var t := FindAssertion(cfg, j, i);
    ReachablePoints(cfg, j);
    DoneChain(cfg, j, c.variant, |cfg.manifest[c.variant].actions|, t);
    assert EarnedAt(cfg, j, c.variant, t, i);
  }

  // ---- replay, order, and the final report ----

  /** `derivePhase` never throws: each transition starts in the phase reached so far and is in the table. */
  lemma JournalReplays(cfg: Config, j: Journal, i: nat)
    requires ValidConfig(cfg) && Reachable(cfg, j)
    requires i < |j| && j[i].Moved?
    ensures ViewOf(j[..i]).phase == Some(j[i].move.from) && Allowed(j[i].move.from, j[i].move.to)
    ensures ViewOf(j).phase.Some?
  {
    ReachableLegal(cfg, j);
    LegalAt(cfg, j, i);
  }

  /** Variants are closed in header order. */
  lemma CleanedInHeaderOrder(cfg: Config, j: Journal, i: nat, k: nat)
    requires ValidConfig(cfg) && Reachable(cfg, j)
    requires i < k < |cfg.variants| && cfg.variants[k] in ViewOf(j).cleaned
    ensures cfg.variants[i] in ViewOf(j).cleaned
  {
    ReachableLegal(cfg, j);
    var v := ViewOf(j);
    var n :| 0 <= n <= |cfg.variants| && v.cleaned.Keys == Elements(cfg.variants[..n]);
    assert cfg.variants[k] in cfg.variants[..n];
    assert cfg.variants[i] in cfg.variants[..n];
  }

  lemma {:induction false} DecidedHasRow(cases: seq<CaseRow>, x: VariantId)
    requires exists c :: c in cases && c.variant == x
    ensures LastRow(cases, x).Some?
    decreases |cases|
  {
    var init, last := cases[..|cases| - 1], cases[|cases| - 1];
    assert cases == init + [last];
    if last.variant != x {
      DecidedHasRow(init, x);
    }
  }

  /** A finished run decided every variant, so its report is never incomplete. */
  lemma FinishedRunIsComplete(cfg: Config, j: Journal)
    requires ValidConfig(cfg) && Reachable(cfg, j) && ViewOf(j).phase == Some(Complete)
    ensures Report(cfg, ViewOf(j)).aggregate != Incomplete
  {
    ReachableLegal(cfg, j);
    var v := ViewOf(j);
    var outcomes := Outcomes(v.cases, v.cleaned);
    forall x | x in cfg.variants ensures LastCase(outcomes, x).Some? {
      assert Decided(v, x);
      DecidedHasRow(v.cases, x);
      ReportSeesLastRow(v.cases, v.cleaned, x);
    }
    NothingMissing(cfg.variants, outcomes);
  }

  /** Once the run is complete, every further admitted call returns the same report. */
  lemma FinishedCallRepeatsReport(cfg: Config, j: Journal, req: Request)
    requires ValidConfig(cfg) && Reachable(cfg, j) && ViewOf(j).phase == Some(Complete) && req.admitted
    ensures Advance(cfg, ViewOf(j), req).outcome == Returned(Finished(Report(cfg, ViewOf(j))))
  {
    ReachableLegal(cfg, j);
  }

  /** A view that a complete run can still reach: nothing the report reads has moved. */
  ghost predicate StillFinished(v: View, v': View) {
    v'.phase == Some(Complete) && v'.cases == v.cases && v'.cleaned == v.cleaned
  }

  lemma FinishedAppends(cfg: Config, v: View, req: Request)
    requires v.phase == Some(Complete)
    ensures var out := Advance(cfg, v, req).out; out == [] || exists a :: out == [RunDecided(a)]
  {
  }

  lemma FinishedFold(v: View, out: seq<Event>)
    requires v.phase == Some(Complete) && |out| <= 1 && (out != [] ==> out[0].RunDecided?)
    ensures StillFinished(v, Fold(Step, v, out))
  {
    if out != [] {
      assert out[..0] == [];
    }
  }

  /** One more act on a complete run. */
  lemma FinishedActChangesNothing(cfg: Config, j: Journal, act: Act)
    requires ViewOf(j).phase == Some(Complete)
    ensures Apply(cfg, Some(j), act).Some?
    ensures StillFinished(ViewOf(j), ViewOf(Apply(cfg, Some(j), act).value))
  {
    match act
    case Create =>
    case Note => ViewSnoc(j, LedgerNote);
    case Invoke(req, cut) =>
      FinishedAppends(cfg, ViewOf(j), req);
      var out := Cut(Advance(cfg, ViewOf(j), req).out, cut);
      FinishedFold(ViewOf(j), out);
      FoldAppend(Step, START, j, out);
  }

  /** Nothing that happens later changes the report of a complete run. */
  lemma {:induction false} FinishedReportIsFinal(cfg: Config, acts: seq<Act>, later: seq<Act>)
    requires History(cfg, acts).Some? && ViewOf(History(cfg, acts).value).phase == Some(Complete)
    ensures History(cfg, acts + later).Some?
    ensures ViewOf(History(cfg, acts + later).value).phase == Some(Complete)
    ensures Report(cfg, ViewOf(History(cfg, acts + later).value)) == Report(cfg, ViewOf(History(cfg, acts).value))
    decreases |later|
  {
    if later == [] {
      assert acts + later == acts;
    } else {
      var init, act := later[..|later| - 1], later[|later| - 1];
      FinishedReportIsFinal(cfg, acts, init);
      LaterSnoc(cfg, acts, later);
      var j := History(cfg, acts + init).value;
      FinishedActChangesNothing(cfg, j, act);
      SameReport(cfg, ViewOf(j), ViewOf(Apply(cfg, Some(j), act).value));
    }
  }
}
