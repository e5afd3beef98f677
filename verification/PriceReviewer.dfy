/** The steps of a review as the source writes them (scripts/lib/price-review.ts:157-340, 426-440). */
module PriceReviewer {
  import opened Common
  import opened Decimal
  import PD = PriceDecimal
  import opened PriceReview
  import opened PriceTheorems

  /** `scaledDecimal`, which scales the digits in place. */
  method ScaledDecimal(text: string, exponent: int) returns (r: PD.Scaled)
    ensures r == PD.ScaledDecimal(text, exponent)
    ensures match PD.Scan(Trim(text))
            case None => r == PD.Unreadable
            case Some(n) => PD.Agrees(r, Move(PD.Denoted(n), exponent))
  {
    PD.ScaledDecimalIsExact(text, exponent);
    var found := PD.Scan(Trim(text));
    if found.None? {
      return PD.Unreadable;
    }
    var n := found.value;
    assert AllDigits(n.whole + n.fraction);
    var digits: nat := Value(n.whole + n.fraction);
    var shift := exponent + n.Power() - |n.fraction|;
    if shift >= 0 {
      digits := digits * Pow10(shift);
    } else {
      var divisor := Pow10(-shift);
      if digits % divisor != 0 {
        return PD.NotWhole;
      }
      digits := digits / divisor;
    }
    r := if digits <= PD.MAX_SAFE_INTEGER then PD.Whole(digits) else PD.Unreadable;
  }

  lemma {:induction false} ObservedSnoc(f: Field, readings: seq<Reading>, last: Reading)
    ensures Observed(f, readings + [last])
            == Observed(f, readings) + if f in last.values then [last.values[f]] else []
  {
    if readings == [] {
      assert readings + [last] == [last];
    } else {
      assert (readings + [last])[1..] == readings[1..] + [last];
      ObservedSnoc(f, readings[1..], last);
    }
  }

  lemma {:induction false} DifferingSnoc(catalog: int, observed: seq<Observation>, last: Observation)
    ensures Differing(catalog, observed + [last])
            == Differing(catalog, observed) + if last == Whole(catalog) then [] else [last]
  {
    if observed == [] {
      assert observed + [last] == [last];
    } else {
      assert (observed + [last])[1..] == observed[1..] + [last];
      DifferingSnoc(catalog, observed[1..], last);
    }
  }

  /** The loop over the readings. */
  method Collect(f: Field, readings: seq<Reading>) returns (observed: seq<Observation>)
    ensures observed == Observed(f, readings)
  {
    observed := [];
    for i := 0 to |readings|
      invariant observed == Observed(f, readings[..i])
    {
      ObservedSnoc(f, readings[..i], readings[i]);
      assert readings[..i + 1] == readings[..i] + [readings[i]];
      if f in readings[i].values {
        observed := observed + [readings[i].values[f]];
      }
    }
    assert readings[..|readings|] == readings;
  }

  /** What differs from the catalog, and the set of its values. */
  method Compare(catalog: int, observed: seq<Observation>)
    returns (whole: bool, differing: seq<Observation>, values: set<Observation>)
    ensures whole == AllWhole(observed) && differing == Differing(catalog, observed)
    ensures values == set o | o in differing
  {
    whole, differing, values := true, [], {};
    for i := 0 to |observed|
      invariant whole == AllWhole(observed[..i]) && differing == Differing(catalog, observed[..i])
      invariant values == set o | o in differing
    {
      DifferingSnoc(catalog, observed[..i], observed[i]);
      assert observed[..i + 1] == observed[..i] + [observed[i]];
      if observed[i].NotWhole? {
        whole := false;
        assert observed[..i + 1][i].NotWhole?;
      }
      if observed[i] != Whole(catalog) {
        differing := differing + [observed[i]];
        values := values + {observed[i]};
      }
    }
    assert observed[..|observed|] == observed;
  }

  lemma SeveralIsSize(differing: seq<Observation>, values: set<Observation>)
    requires values == set o | o in differing
    ensures Several(differing) <==> |values| > 1
  {
    if differing != [] {
      var first := differing[0];
      if Several(differing) {
        var i :| 0 <= i < |differing| && differing[i] != first;
        assert {first, differing[i]} <= values;
        assert |values - {first, differing[i]}| == |values| - 2;
      } else {
        assert values == {first};
      }
    }
  }

  /** `checkField`, with the rule it obeys. */
  method CheckOneField(f: Field, catalog: int, readings: seq<Reading>) returns (r: Outcome)
    ensures r == CheckField(f, catalog, readings)
    ensures r == Confirmed <==> Agreed(Observed(f, readings), catalog, 1)
    ensures r.Changed? ==> Agreed(Observed(f, readings), r.proposed, 2) && r.proposed != catalog
  {
    ghost var outcome := CheckField(f, catalog, readings);
    CheckFieldRule(f, catalog, readings, if outcome.Changed? then outcome.proposed else 0);
    var observed := Collect(f, readings);
    if |observed| == 0 {
      return Unverified;
    }
    var whole, differing, values := Compare(catalog, observed);
    SeveralIsSize(differing, values);
    if !whole {
      return Unverified;
    }
    if |differing| == 0 {
      return Confirmed;
    }
    if |differing| < |observed| || |values| > 1 {
      return Unverified;
    }
    if |differing| < 2 {
      return Unverified;
    }
    DifferingAll(catalog, observed);
    r := Changed(differing[0].value);
  }

  /** The record of outcomes is filled field by field. */
  method CheckAll(catalog: seq<Entry>, readings: seq<Reading>)
    returns (outcomes: seq<Outcome>, proposed: seq<Entry>, problems: nat, changes: nat)
    ensures outcomes == Checked(catalog, readings) && proposed == ProposedFields(catalog, readings)
    ensures (problems > 0 <==> AnyUnverified(outcomes)) && (changes > 0 <==> AnyChanged(outcomes))
  {
    outcomes, proposed, problems, changes := [], [], 0, 0;
    for i := 0 to |catalog|
      invariant outcomes == Checked(catalog[..i], readings) && proposed == ProposedFields(catalog[..i], readings)
      invariant (problems > 0 <==> AnyUnverified(outcomes)) && (changes > 0 <==> AnyChanged(outcomes))
    {
      var outcome := CheckOneField(catalog[i].field, catalog[i].value, readings);
      assert catalog[..i + 1] == catalog[..i] + [catalog[i]];
      AnySnoc(outcomes, outcome);
      outcomes := outcomes + [outcome];
      if outcome == Unverified {
        problems := problems + 1;
      }
      if outcome.Changed? {
        changes := changes + 1;
      }
      proposed := proposed + [if outcome.Changed? then catalog[i].(value := outcome.proposed) else catalog[i]];
    }
    assert catalog[..|catalog|] == catalog;
  }

  /** `reviewPrice` from the readings on. */
  method ReviewOnePrice(price: Price, at: int, accept: Accept, readings: seq<Reading>) returns (review: Review)
    ensures review == ReviewPrice(price, at, accept, readings)
    ensures review.verdict == IsChanged <==> review.proposal.Some? && review.proposal.value.rate != price.rate
  {
    ChangedMeansDifferent(price, at, accept, readings);
    review := Review(IsUnverified, [], None);
    if UtcDay(price.reviewedAt) == UtcDay(at) {
      return review.(verdict := Current);
    }
    var catalog := CatalogFields(price.rate);
    var outcomes, proposedFields, problems, changes := CheckAll(catalog, readings);
    review := review.(fields := outcomes);
    if accept.Accept? && changes > 0 {
      return;
    }
    if accept.Accept? {
      var dueAt := accept.dueAt.UnwrapOr(at + INTERVAL);
      return review.(verdict := Accepted, proposal := Some(Propose(price, catalog, readings, dueAt)));
    }
    if EarlyDue(price) || problems > 0 {
      return;
    }
    review := review.(verdict := if changes > 0 then IsChanged else Unchanged,
                      proposal := Some(Propose(price, proposedFields, readings, at + INTERVAL)));
  }

  lemma AnySnoc(outcomes: seq<Outcome>, last: Outcome)
    ensures AnyChanged(outcomes + [last]) <==> AnyChanged(outcomes) || last.Changed?
    ensures AnyUnverified(outcomes + [last]) <==> AnyUnverified(outcomes) || last == Unverified
  {
    var next := outcomes + [last];
    assert next[|outcomes|] == last;
    if AnyChanged(outcomes) {
      var i :| 0 <= i < |outcomes| && outcomes[i].Changed?;
      assert next[i].Changed?;
    }
    if AnyUnverified(outcomes) {
      var i :| 0 <= i < |outcomes| && outcomes[i] == Unverified;
      assert next[i] == Unverified;
    }
  }
}
