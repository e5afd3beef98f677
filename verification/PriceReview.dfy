/** When a price may change (scripts/lib/price-review.ts:157-340, 386-407). */
module PriceReview {
  import opened Common

  datatype TokenField = Input | Output | CacheRead | CacheWrite | CacheWrite1h
  datatype ImageField = TextInput | ImageInput | ImageOutput
  datatype Field = Base(token: TokenField) | Long(token: TokenField) | Threshold | Image(image: ImageField)

  datatype Tokens =
    Tokens(input: int, output: int, cacheRead: Option<int>, cacheWrite: Option<int>, cacheWrite1h: Option<int>)
  datatype LongContext = LongContext(fromPromptTokens: int, tokens: Tokens)

  /** Provider, model, aliases, currency and unit scale, which a review never touches. */
  datatype Identity = Identity(provider: string, model: string, aliases: seq<string>, currency: string, unitScale: nat)

  datatype Rate =
    | TokenRate(identity: Identity, tokens: Tokens, longContext: Option<LongContext>)
    | ImageRate(identity: Identity, textInput: int, imageInput: int, imageOutput: int)

  /** An insertion-ordered map of fields. */
  datatype Entry = Entry(field: Field, value: int)

  function Lookup(fields: seq<Entry>, f: Field): Option<int> {
    if fields == [] then None
    else if fields[0].field == f then Some(fields[0].value)
    else Lookup(fields[1..], f)
  }

  function Get(fields: seq<Entry>, f: Field): int {
    Lookup(fields, f).UnwrapOr(0)
  }

  // ---- a rate as fields, and back ----

  function Maybe(f: Field, value: Option<int>): seq<Entry> {
    if value.None? then [] else [Entry(f, value.value)]
  }

  function Prefixed(long: bool, f: TokenField): Field {
    if long then Long(f) else Base(f)
  }

  function TokenEntries(long: bool, t: Tokens): seq<Entry> {
    [Entry(Prefixed(long, Input), t.input), Entry(Prefixed(long, Output), t.output)]
    + Maybe(Prefixed(long, CacheRead), t.cacheRead)
    + Maybe(Prefixed(long, CacheWrite), t.cacheWrite)
    + Maybe(Prefixed(long, CacheWrite1h), t.cacheWrite1h)
  }

  function CatalogFields(rate: Rate): seq<Entry> {
    match rate
    case ImageRate(_, t, i, o) =>
      [Entry(Image(TextInput), t), Entry(Image(ImageInput), i), Entry(Image(ImageOutput), o)]
    case TokenRate(_, tokens, None) => TokenEntries(false, tokens)
    case TokenRate(_, tokens, Some(long)) =>
      TokenEntries(false, tokens) + [Entry(Threshold, long.fromPromptTokens)] + TokenEntries(true, long.tokens)
  }

  function TokensOf(long: bool, fields: seq<Entry>): Tokens {
    Tokens(Get(fields, Prefixed(long, Input)), Get(fields, Prefixed(long, Output)),
           Lookup(fields, Prefixed(long, CacheRead)), Lookup(fields, Prefixed(long, CacheWrite)),
           Lookup(fields, Prefixed(long, CacheWrite1h)))
  }

  function RateWith(rate: Rate, fields: seq<Entry>): Rate {
    match rate
    case ImageRate(identity, _, _, _) =>
      ImageRate(identity, Get(fields, Image(TextInput)), Get(fields, Image(ImageInput)),
        Get(fields, Image(ImageOutput)))
    case TokenRate(identity, _, _) =>
      TokenRate(identity, TokensOf(false, fields),
                match Lookup(fields, Threshold)
                case None => None
                case Some(from) => Some(LongContext(from, TokensOf(true, fields))))
  }

  // ---- what the sources say ----

  datatype Observation = Whole(value: int) | NotWhole(text: string)

  datatype Reading = Reading(url: string, own: bool, openRouter: bool, problem: bool, values: map<Field, Observation>)

  /** The observations of one field, in the order of the sources. */
  function Observed(f: Field, readings: seq<Reading>): seq<Observation> {
    if readings == [] then []
    else if f in readings[0].values then [readings[0].values[f]] + Observed(f, readings[1..])
    else Observed(f, readings[1..])
  }

  datatype Outcome = Confirmed | Changed(proposed: int) | Unverified

  /** The observations that are not the catalog's value. */
  function Differing(catalog: int, observed: seq<Observation>): seq<Observation> {
    if observed == [] then []
    else if observed[0] == Whole(catalog) then Differing(catalog, observed[1..])
    else [observed[0]] + Differing(catalog, observed[1..])
  }

  predicate AllWhole(observed: seq<Observation>) {
    forall i :: 0 <= i < |observed| ==> observed[i].Whole?
  }

  /** More than one value among them (`values.size > 1`). */
  predicate Several(observed: seq<Observation>) {
    exists i :: 0 <= i < |observed| && observed[i] != observed[0]
  }

  function CheckField(f: Field, catalog: int, readings: seq<Reading>): Outcome {
    var observed := Observed(f, readings);
    var differing := Differing(catalog, observed);
    if observed == [] || !AllWhole(observed) then Unverified
    else if differing == [] then Confirmed
    else if |differing| < |observed| || Several(differing) then Unverified
    else if |differing| < 2 then Unverified
    else
      match differing[0]
      case Whole(value) => Changed(value)
      case NotWhole(_) => Unverified
  }

  function Checked(fields: seq<Entry>, readings: seq<Reading>): (r: seq<Outcome>)
    ensures |r| == |fields|
  {
    seq(|fields|, i requires 0 <= i < |fields| => CheckField(fields[i].field, fields[i].value, readings))
  }

  function ProposedFields(fields: seq<Entry>, readings: seq<Reading>): (r: seq<Entry>)
    ensures |r| == |fields|
  {
    seq(|fields|, i requires 0 <= i < |fields| =>
      match CheckField(fields[i].field, fields[i].value, readings)
      case Changed(proposed) => fields[i].(value := proposed)
      case _ => fields[i])
  }

  /** `confirms`: the reading lists some field and agrees with every field it lists. */
  predicate Confirms(reading: Reading, fields: seq<Entry>) {
    && !reading.problem
    && (exists i :: 0 <= i < |fields| && fields[i].field in reading.values)
    && (forall i :: 0 <= i < |fields| && fields[i].field in reading.values ==>
          reading.values[fields[i].field] == Whole(fields[i].value))
  }

  function FirstOwn(readings: seq<Reading>, fields: seq<Entry>): Option<string> {
    if readings == [] then None
    else if readings[0].own && Confirms(readings[0], fields) then Some(readings[0].url)
    else FirstOwn(readings[1..], fields)
  }

  function FirstOpenRouter(readings: seq<Reading>): Option<string> {
    if readings == [] then None
    else if !readings[0].problem && readings[0].openRouter then Some(readings[0].url)
    else FirstOpenRouter(readings[1..])
  }

  // ---- the review of one price ----

  datatype Price = Price(rate: Rate, sourceUrl: string, reviewedAt: int, reviewDueAt: int)

  datatype Proposal = Proposal(sourceUrl: string, reviewDueAt: int, rate: Rate)

  datatype Verdict = Current | Unchanged | IsChanged | IsUnverified | Accepted

  datatype Review = Review(verdict: Verdict, fields: seq<Outcome>, proposal: Option<Proposal>)

  const DAY := 86_400_000
  const INTERVAL := 90 * DAY

  /** What `--accept` says about a price: nothing, or a renewal with or without a due date. */
  datatype Accept = NoAccept | Accept(dueAt: Option<int>)

  /** The number of the UTC day of a time in milliseconds. */
  function UtcDay(at: int): int {
    at / 86_400_000
  }

  function Propose(price: Price, fields: seq<Entry>, readings: seq<Reading>, dueAt: int): Proposal {
    var url := if FirstOwn(readings, fields).Some? then FirstOwn(readings, fields).value
               else FirstOpenRouter(readings).UnwrapOr(price.sourceUrl);
    Proposal(url, dueAt, RateWith(price.rate, fields))
  }

  predicate AnyChanged(outcomes: seq<Outcome>) {
    exists i :: 0 <= i < |outcomes| && outcomes[i].Changed?
  }

  predicate AnyUnverified(outcomes: seq<Outcome>) {
    exists i :: 0 <= i < |outcomes| && outcomes[i] == Unverified
  }

  predicate EarlyDue(price: Price) {
    price.reviewDueAt - price.reviewedAt < INTERVAL
  }

  function ReviewPrice(price: Price, at: int, accept: Accept, readings: seq<Reading>): Review {
    if UtcDay(price.reviewedAt) == UtcDay(at) then Review(Current, [], None)
    else
      var catalog := CatalogFields(price.rate);
      var outcomes := Checked(catalog, readings);
      if accept.Accept? && AnyChanged(outcomes) then Review(IsUnverified, outcomes, None)
      else if accept.Accept? then
        Review(Accepted, outcomes, Some(Propose(price, catalog, readings, accept.dueAt.UnwrapOr(at + INTERVAL))))
      else if EarlyDue(price) || AnyUnverified(outcomes) then Review(IsUnverified, outcomes, None)
      else
        Review(if AnyChanged(outcomes) then IsChanged else Unchanged, outcomes,
               Some(Propose(price, ProposedFields(catalog, readings), readings, at + INTERVAL)))
  }

  // ---- the sources of a price ----

  datatype Source =
    OpenRouterModel | OpenRouterMaker | AnthropicPage(own: bool) | OpenAiPage(images: bool, own: bool) | CloudflareModel

  /** `author` is the part of an OpenRouter model id before its slash. */
  function SourcesFor(provider: string, images: bool, author: string): seq<Source> {
    if provider == "anthropic" then [OpenRouterModel, AnthropicPage(true)]
    else if provider == "openai" then
      if images then [OpenAiPage(true, true)] else [OpenRouterModel, OpenAiPage(false, true)]
    else if provider == "openrouter" then
      [OpenRouterMaker]
      + (if author == "anthropic" then [AnthropicPage(false)] else [])
      + (if author == "openai" then [OpenAiPage(false, false)] else [])
    else if provider == "cloudflare" || provider == "cloudflare-workers-ai" then [CloudflareModel]
    else if provider == "google" then [OpenRouterModel]
    else []
  }

  /** Whatever each source answers. */
  function ReadAll(sources: seq<Source>, read: Source -> Reading): (r: seq<Reading>)
    ensures |r| == |sources|
  {
    seq(|sources|, i requires 0 <= i < |sources| => read(sources[i]))
  }
}
