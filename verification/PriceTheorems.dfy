/** A price changes only to a value that all sources listing it agree on; anything else rebuilds the catalog's rate. */
module PriceTheorems {
  import opened Common
  import opened PriceReview

  // ---- the rule for one field ----

  /** Sources that list the field all give the whole value `v`, and at least `n` of them list it. */
  ghost predicate Agreed(observed: seq<Observation>, v: int, n: nat) {
    |observed| >= n && forall i :: 0 <= i < |observed| ==> observed[i] == Whole(v)
  }

  lemma {:induction false} DifferingAll(catalog: int, observed: seq<Observation>)
    ensures |Differing(catalog, observed)| <= |observed|
    ensures |Differing(catalog, observed)| == |observed| <==>
              forall i :: 0 <= i < |observed| ==> observed[i] != Whole(catalog)
    ensures |Differing(catalog, observed)| == |observed| ==> Differing(catalog, observed) == observed
    ensures Differing(catalog, observed) == [] <==> forall i :: 0 <= i < |observed| ==> observed[i] == Whole(catalog)
  {
    if observed != [] {
      var rest := observed[1..];
      DifferingAll(catalog, rest);
      assert forall i :: 0 < i < |observed| ==> observed[i] == rest[i - 1];
    }
  }

  /**
   * The rule, both ways: a field is confirmed exactly when some source lists it and all that do give
   * the catalog's value, and changed to `p` exactly when at least two list it, all of them as the
   * whole value `p`, and `p` is not the catalog's.
   */
  lemma CheckFieldRule(f: Field, catalog: int, readings: seq<Reading>, p: int)
    ensures CheckField(f, catalog, readings) == Confirmed <==> Agreed(Observed(f, readings), catalog, 1)
    ensures CheckField(f, catalog, readings) == Changed(p) <==> Agreed(Observed(f, readings), p, 2) && p != catalog
  {
    var observed := Observed(f, readings);
    DifferingAll(catalog, observed);
    if observed != [] && observed[0].Whole? && !Several(observed) && AllWhole(observed) {
      assert Agreed(observed, observed[0].value, 1);
    }
  }

  /** The observations are the readings that list the field. */
  lemma {:induction false} FewObserved(f: Field, readings: seq<Reading>)
    ensures |Observed(f, readings)| <= |readings|
    ensures forall o ::
              o in Observed(f, readings) <==>
              exists i :: 0 <= i < |readings| && f in readings[i].values && readings[i].values[f] == o
  {
    if readings != [] {
      var rest := readings[1..];
      FewObserved(f, rest);
      forall o
        ensures o in Observed(f, readings)
                <==> exists i :: 0 <= i < |readings| && f in readings[i].values && readings[i].values[f] == o
      {
        if i :| 0 <= i < |readings| && f in readings[i].values && readings[i].values[f] == o {
          if i > 0 {
            assert rest[i - 1] == readings[i];
          }
        }
        if o in Observed(f, rest) {
          var i :| 0 <= i < |rest| && f in rest[i].values && rest[i].values[f] == o;
          assert readings[i + 1] == rest[i];
        }
      }
    }
  }

  // ---- rates and fields ----

  lemma {:induction false} LookupAppend(a: seq<Entry>, b: seq<Entry>, f: Field)
    ensures Lookup(a + b, f) == if Lookup(a, f).Some? then Lookup(a, f) else Lookup(b, f)
  {
    if a == [] {
      assert a + b == b;
    } else {
      assert (a + b)[1..] == a[1..] + b;
      LookupAppend(a[1..], b, f);
    }
  }

  function TokenValue(t: Tokens, f: TokenField): Option<int> {
    match f
    case Input => Some(t.input)
    case Output => Some(t.output)
    case CacheRead => t.cacheRead
    case CacheWrite => t.cacheWrite
    case CacheWrite1h => t.cacheWrite1h
  }

  lemma LookupMaybe(g: Field, value: Option<int>, f: Field)
    ensures Lookup(Maybe(g, value), f) == if f == g then value else None
  {
  }

  lemma LookupTokens(long: bool, t: Tokens, f: Field)
    ensures Lookup(TokenEntries(long, t), f)
            == if (f.Base? && !long) || (f.Long? && long) then TokenValue(t, f.token) else None
  {
    var first := [Entry(Prefixed(long, Input), t.input), Entry(Prefixed(long, Output), t.output)];
    var read := Maybe(Prefixed(long, CacheRead), t.cacheRead);
    var write := Maybe(Prefixed(long, CacheWrite), t.cacheWrite);
    var hour := Maybe(Prefixed(long, CacheWrite1h), t.cacheWrite1h);
    LookupAppend(first, read, f);
    LookupAppend(first + read, write, f);
    LookupAppend(first + read + write, hour, f);
    LookupMaybe(Prefixed(long, CacheRead), t.cacheRead, f);
    LookupMaybe(Prefixed(long, CacheWrite), t.cacheWrite, f);
    LookupMaybe(Prefixed(long, CacheWrite1h), t.cacheWrite1h, f);
    assert Lookup(first, f) == if f == first[0].field then Some(t.input)
        else if f == first[1].field then Some(t.output) else None by {
      assert first[1..][1..] == [];
      assert Lookup(first[1..], f) == if f == first[1].field then Some(t.output) else None;
    }
  }

  /** What a rate says about a field. */
  function ValueOf(rate: Rate, f: Field): Option<int> {
    match rate
    case ImageRate(_, t, i, o) =>
      if f == Image(TextInput) then Some(t)
      else if f == Image(ImageInput) then Some(i)
      else if f == Image(ImageOutput) then Some(o)
      else None
    case TokenRate(_, tokens, long) =>
      match f
      case Base(g) => TokenValue(tokens, g)
      case Image(_) => None
      case Threshold => if long.None? then None else Some(long.value.fromPromptTokens)
      case Long(g) => if long.None? then None else TokenValue(long.value.tokens, g)
  }

  lemma LookupImage(t: int, i: int, o: int, f: Field)
    ensures Lookup([Entry(Image(TextInput), t), Entry(Image(ImageInput), i), Entry(Image(ImageOutput), o)], f)
            == if f == Image(TextInput) then Some(t) else if f == Image(ImageInput) then Some(i)
               else if f == Image(ImageOutput) then Some(o) else None
  {
    var s := [Entry(Image(TextInput), t), Entry(Image(ImageInput), i), Entry(Image(ImageOutput), o)];
    assert s == [s[0]] + ([s[1]] + [s[2]]);
    LookupAppend([s[0]], [s[1]] + [s[2]], f);
    LookupAppend([s[1]], [s[2]], f);
  }

  /** The fields of a rate hold what the rate says. */
  lemma CatalogHolds(rate: Rate, f: Field)
    ensures Lookup(CatalogFields(rate), f) == ValueOf(rate, f)
  {
    match rate
    case ImageRate(_, t, i, o) => LookupImage(t, i, o, f);
    case TokenRate(_, tokens, long) =>
      LookupTokens(false, tokens, f);
      if long.Some? {
        var base, from := TokenEntries(false, tokens), [Entry(Threshold, long.value.fromPromptTokens)];
        LookupTokens(true, long.value.tokens, f);
        LookupAppend(base, from, f);
        LookupAppend(base + from, TokenEntries(true, long.value.tokens), f);
      }
  }

  /** A rate is what it says about every field. */
  lemma RateWithSays(rate: Rate, fields: seq<Entry>, next: Rate)
    requires forall f :: Lookup(fields, f) == ValueOf(next, f)
    requires rate.TokenRate? == next.TokenRate? && rate.identity == next.identity
    ensures RateWith(rate, fields) == next
  {
    match next
    case ImageRate(_, t, i, o) =>
      assert Lookup(fields, Image(TextInput)) == Some(t);
      assert Lookup(fields, Image(ImageInput)) == Some(i);
      assert Lookup(fields, Image(ImageOutput)) == Some(o);
    case TokenRate(_, tokens, long) =>
      TokensSay(false, fields, tokens);
      assert Lookup(fields, Threshold) == ValueOf(next, Threshold);
      if long.Some? {
        TokensSay(true, fields, long.value.tokens);
      }
  }

  lemma TokensSay(long: bool, fields: seq<Entry>, t: Tokens)
    requires forall g :: Lookup(fields, Prefixed(long, g)) == TokenValue(t, g)
    ensures TokensOf(long, fields) == t
  {
    assert Lookup(fields, Prefixed(long, Input)) == TokenValue(t, Input);
    assert Lookup(fields, Prefixed(long, Output)) == TokenValue(t, Output);
    assert Lookup(fields, Prefixed(long, CacheRead)) == TokenValue(t, CacheRead);
    assert Lookup(fields, Prefixed(long, CacheWrite)) == TokenValue(t, CacheWrite);
    assert Lookup(fields, Prefixed(long, CacheWrite1h)) == TokenValue(t, CacheWrite1h);
  }

  /** `rateWith` undoes `catalogFields`. */
  lemma RateWithUndoesCatalogFields(rate: Rate)
    ensures RateWith(rate, CatalogFields(rate)) == rate
  {
    forall f ensures Lookup(CatalogFields(rate), f) == ValueOf(rate, f) {
      CatalogHolds(rate, f);
    }
    RateWithSays(rate, CatalogFields(rate), rate);
  }

  /** The other way round: with values for exactly the fields of a rate, the new rate says those values. */
  lemma CatalogFieldsUndoesRateWith(rate: Rate, fields: seq<Entry>, f: Field)
    requires forall g :: Lookup(fields, g).Some? <==> ValueOf(rate, g).Some?
    ensures ValueOf(RateWith(rate, fields), f) == Lookup(fields, f)
  {
    assert Lookup(fields, f).Some? <==> ValueOf(rate, f).Some?;
    assert Lookup(fields, Threshold).Some? <==> ValueOf(rate, Threshold).Some?;
  }

  // ---- proposals ----

  /** The value a review wants for a field: what the sources agree on, or the catalog's. */
  function Wanted(rate: Rate, readings: seq<Reading>, f: Field): Option<int> {
    match ValueOf(rate, f)
    case None => None
    case Some(v) =>
      match CheckField(f, v, readings)
      case Changed(p) => Some(p)
      case _ => Some(v)
  }

  lemma {:induction false} ProposedLookup(fields: seq<Entry>, readings: seq<Reading>, f: Field)
    ensures Lookup(ProposedFields(fields, readings), f)
            == match Lookup(fields, f)
               case None => None
               case Some(v) =>
                 match CheckField(f, v, readings)
                 case Changed(p) => Some(p)
                 case _ => Some(v)
  {
    if fields != [] {
      ProposedLookup(fields[1..], readings, f);
      assert ProposedFields(fields, readings)[1..] == ProposedFields(fields[1..], readings);
    }
  }

  /**
   * The proposed rate keeps the identity and the fields of the current one, and every field keeps its
   * value unless at least two sources list it and all that do agree on another whole value.
   */
  lemma ProposedRateIsWanted(rate: Rate, readings: seq<Reading>, f: Field)
    ensures var next := RateWith(rate, ProposedFields(CatalogFields(rate), readings));
            && next.identity == rate.identity && next.TokenRate? == rate.TokenRate?
            && ValueOf(next, f) == Wanted(rate, readings, f)
            && (ValueOf(next, f).Some? <==> ValueOf(rate, f).Some?)
            && (ValueOf(next, f) != ValueOf(rate, f) ==> Agreed(Observed(f, readings), ValueOf(next, f).value, 2))
  {
    var fields := ProposedFields(CatalogFields(rate), readings);
    forall g ensures Lookup(fields, g) == Wanted(rate, readings, g) {
      CatalogHolds(rate, g);
      ProposedLookup(CatalogFields(rate), readings, g);
    }
    CatalogFieldsUndoesRateWith(rate, fields, f);
    if ValueOf(rate, f).Some? && Wanted(rate, readings, f) != ValueOf(rate, f) {
      CheckFieldRule(f, ValueOf(rate, f).value, readings, Wanted(rate, readings, f).value);
    }
  }

  /** With no field changed, the proposed fields are the catalog's. */
  lemma NothingChanged(fields: seq<Entry>, readings: seq<Reading>)
    requires !AnyChanged(Checked(fields, readings))
    ensures ProposedFields(fields, readings) == fields
  {
    forall i | 0 <= i < |fields| ensures ProposedFields(fields, readings)[i] == fields[i] {
      assert !Checked(fields, readings)[i].Changed?;
    }
  }

  /** A field's check is the check of what the rate says about it. */
  lemma {:induction false} EntryAt(fields: seq<Entry>, f: Field)
    ensures Lookup(fields, f).Some? <==> exists i :: 0 <= i < |fields| && fields[i].field == f
    ensures Lookup(fields, f).Some? ==> exists i :: 0 <= i < |fields| && fields[i] == Entry(f, Lookup(fields, f).value)
  {
    if fields != [] {
      EntryAt(fields[1..], f);
      if i :| 0 <= i < |fields| && fields[i].field == f && i > 0 {
        assert fields[1..][i - 1] == fields[i];
      }
      if fields[0].field == f {
        assert fields[0] == Entry(f, Lookup(fields, f).value);
      } else if Lookup(fields, f).Some? {
        var i :| 0 <= i < |fields[1..]| && fields[1..][i] == Entry(f, Lookup(fields[1..], f).value);
        assert fields[i + 1] == fields[1..][i];
      }
    }
  }

  /**
   * Which prices get a proposal, and what it says. Every proposal except that of a changed price
   * rebuilds exactly the current rate; that of a changed price is the wanted rate, and is made only
   * when every field the catalog holds is confirmed or changed by agreeing sources.
   */
  lemma ProposalRule(price: Price, at: int, accept: Accept, readings: seq<Reading>)
    ensures var review := ReviewPrice(price, at, accept, readings);
            && (review.proposal.Some? <==> review.verdict in {Unchanged, IsChanged, Accepted})
            && (review.verdict in {Unchanged, Accepted} ==> review.proposal.value.rate == price.rate)
            && (review.verdict == IsChanged ==>
                  && accept.NoAccept? && !EarlyDue(price)
                  && review.proposal.value.rate
                       == RateWith(price.rate, ProposedFields(CatalogFields(price.rate), readings))
                  && forall f :: ValueOf(price.rate, f).Some? ==>
                       var v := ValueOf(price.rate, f).value;
                       Agreed(Observed(f, readings), v, 1)
                       || (exists p :: p != v && Agreed(Observed(f, readings), p, 2)))
  {
    var catalog := CatalogFields(price.rate);
    RateWithUndoesCatalogFields(price.rate);
    var review := ReviewPrice(price, at, accept, readings);
    if review.verdict == Unchanged {
      NothingChanged(catalog, readings);
    }
    if review.verdict == IsChanged {
      forall f | ValueOf(price.rate, f).Some?
        ensures var v := ValueOf(price.rate, f).value;
                Agreed(Observed(f, readings), v, 1) || (exists p :: p != v && Agreed(Observed(f, readings), p, 2))
      {
        VerifiedField(price.rate, readings, f);
      }
    }
  }

  lemma VerifiedField(rate: Rate, readings: seq<Reading>, f: Field)
    requires !AnyUnverified(Checked(CatalogFields(rate), readings)) && ValueOf(rate, f).Some?
    ensures var v := ValueOf(rate, f).value;
            Agreed(Observed(f, readings), v, 1) || (exists p :: p != v && Agreed(Observed(f, readings), p, 2))
  {
    var catalog, v := CatalogFields(rate), ValueOf(rate, f).value;
    CatalogHolds(rate, f);
    EntryAt(catalog, f);
    var i :| 0 <= i < |catalog| && catalog[i] == Entry(f, v);
    var outcome := Checked(catalog, readings)[i];
    assert outcome == CheckField(f, v, readings) && outcome != Unverified;
    CheckFieldRule(f, v, readings, if outcome.Changed? then outcome.proposed else v);
  }

  /** A price is called changed exactly when its proposal differs from the current rate. */
  lemma ChangedMeansDifferent(price: Price, at: int, accept: Accept, readings: seq<Reading>)
    ensures var review := ReviewPrice(price, at, accept, readings);
            review.verdict == IsChanged <==> review.proposal.Some? && review.proposal.value.rate != price.rate
  {
    var review := ReviewPrice(price, at, accept, readings);
    ProposalRule(price, at, accept, readings);
    if review.verdict == IsChanged {
      var catalog := CatalogFields(price.rate);
      var outcomes := Checked(catalog, readings);
      var i :| 0 <= i < |outcomes| && outcomes[i].Changed?;
      ChangedFieldDiffers(price.rate, readings, i);
    }
  }

  lemma ChangedFieldDiffers(rate: Rate, readings: seq<Reading>, i: nat)
    requires i < |CatalogFields(rate)| && Checked(CatalogFields(rate), readings)[i].Changed?
    ensures RateWith(rate, ProposedFields(CatalogFields(rate), readings)) != rate
  {
    var catalog := CatalogFields(rate);
    var f := catalog[i].field;
    CatalogHolds(rate, f);
    CatalogIsDistinct(rate, i);
    var p := Checked(catalog, readings)[i].proposed;
    CheckFieldRule(f, catalog[i].value, readings, p);
    ProposedRateIsWanted(rate, readings, f);
  }

  lemma TokenEntryAt(long: bool, t: Tokens, i: nat)
    requires i < |TokenEntries(long, t)|
    ensures exists g :: TokenEntries(long, t)[i].field == Prefixed(long, g)
                        && TokenValue(t, g) == Some(TokenEntries(long, t)[i].value)
  {
    assert TokenValue(t, Input) == Some(t.input) && TokenValue(t, Output) == Some(t.output);
    assert TokenValue(t, CacheRead) == t.cacheRead && TokenValue(t, CacheWrite) == t.cacheWrite;
    assert TokenValue(t, CacheWrite1h) == t.cacheWrite1h;
  }

  /** No field appears twice. */
  lemma CatalogIsDistinct(rate: Rate, i: nat)
    requires i < |CatalogFields(rate)|
    ensures ValueOf(rate, CatalogFields(rate)[i].field) == Some(CatalogFields(rate)[i].value)
  {
    match rate
    case ImageRate(_, _, _, _) =>
    case TokenRate(_, tokens, long) =>
      var n := |TokenEntries(false, tokens)|;
      if i < n {
        TokenEntryAt(false, tokens, i);
      } else if i > n {
        TokenEntryAt(true, long.value.tokens, i - n - 1);
      }
  }

  /** With at most one source, nothing is ever changed, whatever that source says. */
  lemma OneSourceNeverChanges(price: Price, at: int, accept: Accept, readings: seq<Reading>)
    requires |readings| <= 1
    ensures ReviewPrice(price, at, accept, readings).verdict != IsChanged
    ensures var r := ReviewPrice(price, at, accept, readings); r.proposal.Some? ==> r.proposal.value.rate == price.rate
  {
    var catalog := CatalogFields(price.rate);
    var outcomes := Checked(catalog, readings);
    forall i | 0 <= i < |outcomes| ensures !outcomes[i].Changed? {
      FewObserved(catalog[i].field, readings);
      if outcomes[i].Changed? {
        CheckFieldRule(catalog[i].field, catalog[i].value, readings, outcomes[i].proposed);
      }
    }
    ProposalRule(price, at, accept, readings);
  }

  /** Providers whose prices have one source or none. */
  predicate SingleSource(provider: string, images: bool, author: string) {
    || (provider == "openai" && images)
    || (provider == "openrouter" && author != "anthropic" && author != "openai")
    || (provider != "anthropic" && provider != "openai" && provider != "openrouter")
  }

  /** Their prices are never changed, whatever is fetched: a proposal keeps the rate. */
  lemma SingleSourceProviders(
    provider: string, images: bool, author: string, price: Price, at: int, accept: Accept, read: Source -> Reading)
    ensures |SourcesFor(provider, images, author)| <= 1 <==> SingleSource(provider, images, author)
    ensures SingleSource(provider, images, author) ==>
              var r := ReviewPrice(price, at, accept, ReadAll(SourcesFor(provider, images, author), read));
              r.verdict != IsChanged && (r.proposal.Some? ==> r.proposal.value.rate == price.rate)
  {
    if SingleSource(provider, images, author) {
      OneSourceNeverChanges(price, at, accept, ReadAll(SourcesFor(provider, images, author), read));
    }
  }

  /** A reading that lists the catalog's own values. */
  function Agreeing(fields: seq<Entry>): Reading {
    var listed := set i | 0 <= i < |fields| :: fields[i].field;
    Reading("", false, false, false, map f | f in listed :: Whole(Get(fields, f)))
  }

  /** One source that agrees confirms every field. */
  lemma AgreeingConfirms(rate: Rate, i: nat)
    requires i < |CatalogFields(rate)|
    ensures Checked(CatalogFields(rate), [Agreeing(CatalogFields(rate))])[i] == Confirmed
  {
    var catalog := CatalogFields(rate);
    var readings := [Agreeing(catalog)];
    CatalogIsDistinct(rate, i);
    CatalogHolds(rate, catalog[i].field);
    assert readings[1..] == [];
    assert Observed(catalog[i].field, readings) == [Whole(catalog[i].value)];
    CheckFieldRule(catalog[i].field, catalog[i].value, readings, 0);
  }

  lemma NoSourceConfirms(price: Price, at: int, readings: seq<Reading>)
    requires readings == []
    ensures ReviewPrice(price, at, NoAccept, readings).proposal.None?
  {
    var outcomes := Checked(CatalogFields(price.rate), readings);
    assert |outcomes| > 0 && outcomes[0] == Unverified;
  }

  /** When such a price can be renewed: by `--accept`, or by a source that agrees once the price has run its time. */
  predicate Renewable(price: Price, at: int, accept: Accept, sources: seq<Source>) {
    UtcDay(price.reviewedAt) != UtcDay(at) && (accept.Accept? || (!EarlyDue(price) && sources != []))
  }

  /** Some readings renew it exactly then. */
  lemma SingleSourceRenews(
    provider: string, images: bool, author: string, price: Price, at: int, accept: Accept)
    requires SingleSource(provider, images, author)
    ensures var sources := SourcesFor(provider, images, author);
            (exists read: Source -> Reading :: ReviewPrice(price, at, accept, ReadAll(sources, read)).proposal.Some?)
            <==> Renewable(price, at, accept, sources)
  {
    var sources := SourcesFor(provider, images, author);
    if Renewable(price, at, accept, sources) {
      var read := (s: Source) => Agreeing(CatalogFields(price.rate));
      var readings := ReadAll(sources, read);
      OneSourceNeverChanges(price, at, accept, readings);
      AgreeingRenews(price, at, accept, readings);
      assert ReviewPrice(price, at, accept, ReadAll(sources, read)).proposal.Some?;
    } else {
      forall read: Source -> Reading ensures ReviewPrice(price, at, accept, ReadAll(sources, read)).proposal.None? {
        if sources == [] && accept.NoAccept? {
          NoSourceConfirms(price, at, ReadAll(sources, read));
        }
      }
    }
  }

  lemma AgreeingRenews(price: Price, at: int, accept: Accept, readings: seq<Reading>)
    requires UtcDay(price.reviewedAt) != UtcDay(at) && (accept.Accept? || (!EarlyDue(price) && readings != []))
    requires |readings| <= 1 && (readings != [] ==> readings[0] == Agreeing(CatalogFields(price.rate)))
    ensures ReviewPrice(price, at, accept, readings).proposal.Some?
  {
    var outcomes := Checked(CatalogFields(price.rate), readings);
    if readings == [] {
      assert forall i :: 0 <= i < |outcomes| ==> outcomes[i] == Unverified;
    } else {
      assert readings == [Agreeing(CatalogFields(price.rate))];
      forall i | 0 <= i < |outcomes| ensures outcomes[i] == Confirmed {
        AgreeingConfirms(price.rate, i);
      }
    }
  }

  /** The proposal cites a provider's own page only if that page lists a proposed field and agrees with all it lists. */
  lemma {:induction false} OwnPageConfirms(readings: seq<Reading>, fields: seq<Entry>)
    ensures FirstOwn(readings, fields).Some?
            <==> exists i :: 0 <= i < |readings| && readings[i].own && Confirms(readings[i], fields)
    ensures FirstOwn(readings, fields).Some? ==>
              exists i :: 0 <= i < |readings| && readings[i].own && Confirms(readings[i], fields)
                          && FirstOwn(readings, fields) == Some(readings[i].url)
  {
    if readings != [] && !(readings[0].own && Confirms(readings[0], fields)) {
      var rest := readings[1..];
      OwnPageConfirms(rest, fields);
      if i :| 0 <= i < |readings| && readings[i].own && Confirms(readings[i], fields) {
        assert rest[i - 1] == readings[i];
      }
      if FirstOwn(rest, fields).Some? {
        var i :| 0 <= i < |rest| && rest[i].own && Confirms(rest[i], fields)
            && FirstOwn(rest, fields) == Some(rest[i].url);
        assert readings[i + 1] == rest[i];
      }
    }
  }
}
