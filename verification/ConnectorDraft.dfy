/** Drafting a connector manifest and checking one (scripts/lib/composio-manifests.ts:582-786). */
module ConnectorDraft {
  import opened Common
  import opened ConnectorSchema

  // ---- data ----

  datatype Effect = ReadEffect | ReversibleWrite | ExternalPublish | SpendOrBudget | Destructive | Administrative

  datatype Class = Excluded | Reads | Writes(effect: Effect)

  datatype Tool = Tool(slug: string, name: string, description: string, important: bool, input: Raw)

  datatype Auth = ManagedOAuth | ApiKey(fields: seq<string>)

  datatype Snapshot =
    Snapshot(toolkit: string, name: string, version: string, description: string, auth: Option<Auth>, tools: seq<Tool>)

  datatype Capability = Capability(
    id: string, tool: string, toolName: string, write: bool, effect: Effect,
    description: string, sideEffectLabel: Option<string>, withheld: Option<map<string, string>>,
    preconditions: Option<string>, input: Schema)

  datatype Review = Review(
    add: seq<string>,
    drop: map<string, string>,
    allowArguments: map<string, seq<string>>,
    withholdArguments: Option<map<string, map<string, string>>>,
    allowValues: Option<map<string, map<string, seq<string>>>>)

  type Arguments = map<string, string>

  datatype Manifest = Manifest(
    toolkit: string, version: string, auth: Auth, title: string, description: string, securityDescription: string,
    preset: string, validationCapability: string, validationArguments: Option<Arguments>, review: Review,
    capabilities: seq<Capability>)

  datatype Outcome<T> = Ok(value: T) | Thrown

  /** Word lists, name rewriting, bounded copy and shape checks. */
  datatype Rules = Rules(
    classify: (string, Tool) -> Class,
    policy: (Tool, bool) -> Policy,
    localName: (string, string) -> string,
    lower: string -> string,
    bounded: (string, nat) -> Option<string>,
    securityDescription: (string, Auth) -> string,
    preset: string,
    looksLikeAccount: string -> bool,
    valuesFit: (Schema, Arguments) -> bool,
    shape: Manifest -> bool)

  // ---- review ----

  const NO_REVIEW := Review([], map[], map[], None, None)

  predicate Before(a: string, b: string) {
    a == [] || (b != [] && (a[0] < b[0] || (a[0] == b[0] && Before(a[1..], b[1..]))))
  }

  function Inserted(x: string, s: seq<string>): seq<string> {
    if s == [] || Before(x, s[0]) then [x] + s else [s[0]] + Inserted(x, s[1..])
  }

  function Sorted(s: seq<string>): seq<string> {
    if s == [] then [] else Inserted(s[0], Sorted(s[1..]))
  }

  function NonEmpty<T>(m: Option<map<string, T>>): Option<map<string, T>> {
    if m.Some? && |m.value| == 0 then None else m
  }

  /** The review a draft writes: names once and in order, empty tables left out. */
  function Tidied(r: Review): Review {
    r.(add := Sorted(Dedup(r.add)),
       withholdArguments := NonEmpty(r.withholdArguments),
       allowValues := NonEmpty(r.allowValues))
  }

  function Entry<T>(m: Option<map<string, map<string, T>>>, slug: string): map<string, T> {
    if m.Some? && slug in m.value then m.value[slug] else map[]
  }

  // ---- one tool ----

  /** What a tool contributes before any copy is taken over from a previous manifest. */
  datatype Core =
    | Skipped
    | Throws
    | Core(
        id: string, toolName: string, write: bool, effect: Effect, withheld: Option<map<string, string>>, input: Schema)

  predicate NeedsReview(e: Effect) {
    e in {Destructive, Administrative, SpendOrBudget, ExternalPublish}
  }

  function Allowed(review: Review, slug: string): set<string> {
    if slug in review.allowArguments then set a | a in review.allowArguments[slug] else {}
  }

  function PolicyFor(rules: Rules, tool: Tool, write: bool, review: Review): Policy {
    rules.policy(tool, write).(
      write := write,
      allow := Allowed(review, tool.slug),
      deny := Entry(review.withholdArguments, tool.slug),
      values := Entry(review.allowValues, tool.slug))
  }

  function CoreOf(rules: Rules, toolkit: string, tool: Tool, review: Review): Core {
    if !tool.important && tool.slug !in review.add then Skipped
    else if tool.slug in review.drop && review.drop[tool.slug] != "" then Skipped
    else
      var name := rules.localName(toolkit, tool.slug);
      match rules.classify(name, tool)
      case Excluded => Skipped
      case Reads => Finish(rules, toolkit, tool, review, name, false, ReadEffect)
      case Writes(effect) => Finish(rules, toolkit, tool, review, name, true, effect)
  }

  function Finish(
    rules: Rules, toolkit: string, tool: Tool, review: Review, name: string, write: bool, effect: Effect): Core {
    var policy := PolicyFor(rules, tool, write, review);
    var input := DeriveInput(policy, tool.input);
    if input.derived.Unsupported? then Skipped
    else if !(policy.deny.Keys <= input.notes.withheld.Keys && policy.values.Keys <= input.notes.narrowed) then Throws
    else if !write && |input.notes.allowedKept| > 0 then Throws
    else
      var raised := if |input.notes.allowedKept| > 0 && effect != Destructive then Administrative else effect;
      if NeedsReview(raised) && tool.slug !in review.add then Skipped
      else
        var toolName := toolkit + "_" + rules.lower(name);
        if |toolName| > 64 then Skipped
        else
          Core(toolkit + "." + rules.lower(name), toolName, write, raised,
               if |input.notes.withheld| > 0 then Some(input.notes.withheld) else None, input.derived.schema)
  }

  /** The last capability of a tool, as a map built from a list keeps it. */
  function Previous(capabilities: seq<Capability>, slug: string): Option<Capability>
    decreases |capabilities|
  {
    if capabilities == [] then None
    else
      var last := capabilities[|capabilities| - 1];
      if last.tool == slug then Some(last) else Previous(capabilities[..|capabilities| - 1], slug)
  }

  /** The capability of a tool, with the copy a previous manifest holds. */
  function Filled(rules: Rules, title: string, tool: Tool, core: Core, previous: Option<Capability>): Capability
    requires core.Core?
  {
    Capability(
      core.id, tool.slug, core.toolName, core.write, core.effect,
      if previous.Some? then previous.value.description else rules.bounded(tool.description, 1_000).UnwrapOr(tool.name),
      if !core.write then None
      else if previous.Some? && previous.value.sideEffectLabel.Some? then previous.value.sideEffectLabel
      else rules.bounded(title + ": " + tool.name, 240),
      core.withheld,
      if previous.Some? then previous.value.preconditions else None,
      core.input)
  }

  function Capabilities(
    rules: Rules, toolkit: string, title: string, tools: seq<Tool>, review: Review, kept: seq<Capability>)
    : Outcome<seq<Capability>>
  {
    if tools == [] then Ok([])
    else
      match CoreOf(rules, toolkit, tools[0], review)
      case Throws => Thrown
      case Skipped => Capabilities(rules, toolkit, title, tools[1..], review, kept)
      case Core(_, _, _, _, _, _) =>
        var core := CoreOf(rules, toolkit, tools[0], review);
        match Capabilities(rules, toolkit, title, tools[1..], review, kept)
        case Thrown => Thrown
        case Ok(rest) => Ok([Filled(rules, title, tools[0], core, Previous(kept, tools[0].slug))] + rest)
  }

  // ---- validation ----

  predicate Supplies(arguments: Option<Arguments>, required: seq<string>) {
    forall i :: 0 <= i < |required| ==> arguments.Some? && required[i] in arguments.value
  }

  predicate Candidate(arguments: Option<Arguments>, c: Capability) {
    !c.write && c.input.Obj? && Supplies(arguments, c.input.required)
  }

  function FirstWhere(capabilities: seq<Capability>, test: Capability -> bool): (r: Option<Capability>)
    ensures r.Some? ==> test(r.value) && r.value in capabilities
  {
    if capabilities == [] then None
    else if test(capabilities[0]) then Some(capabilities[0])
    else FirstWhere(capabilities[1..], test)
  }

  function Chosen(
    rules: Rules, capabilities: seq<Capability>, arguments: Option<Arguments>,
    previous: Option<string>): Option<Capability> {
    var named := FirstWhere(capabilities, (c: Capability) => Candidate(arguments, c) && previous == Some(c.id));
    var isAccount := (c: Capability) => Candidate(arguments, c) && rules.looksLikeAccount(c.tool);
    var account := FirstWhere(capabilities, isAccount);
    if named.Some? then named
    else if account.Some? then account
    else FirstWhere(capabilities, (c: Capability) => Candidate(arguments, c))
  }

  predicate Takes(c: Capability, key: string) {
    c.input.Obj? && exists i :: 0 <= i < |c.input.properties| && c.input.properties[i].key == key
  }

  /** Every argument given is one the input takes. */
  predicate Fresh(arguments: Option<Arguments>, c: Capability) {
    arguments.Some? ==> forall key :: key in arguments.value ==> Takes(c, key)
  }

  // ---- parsing ----

  /** The first capability of that id is a read whose input accepts exactly the given arguments. */
  predicate Validates(rules: Rules, m: Manifest) {
    var named := FirstWhere(m.capabilities, (c: Capability) => c.id == m.validationCapability);
    && named.Some? && Candidate(m.validationArguments, named.value) && Fresh(m.validationArguments, named.value)
    && rules.valuesFit(named.value.input, m.validationArguments.UnwrapOr(map[]))
  }

  /** `parseComposioManifest`, the identity on what it accepts. */
  function Parse(rules: Rules, m: Manifest): Outcome<Manifest> {
    if rules.shape(m) && Validates(rules, m) then Ok(m) else Thrown
  }

  // ---- drafting ----

  function ReviewOf(previous: Option<Manifest>): Review {
    if previous.Some? then previous.value.review else NO_REVIEW
  }

  function CapabilitiesOf(previous: Option<Manifest>): seq<Capability> {
    if previous.Some? then previous.value.capabilities else []
  }

  /** Whether `review.add` and `review.drop` name the same tool. */
  predicate Overridden(review: Review) {
    exists i :: 0 <= i < |review.add| && review.add[i] in review.drop
  }

  /** The manifest a draft writes, copy taken from the previous one where there is one. */
  function Composed(
    rules: Rules, s: Snapshot, auth: Auth, previous: Option<Manifest>, title: string,
    validation: string, arguments: Option<Arguments>, capabilities: seq<Capability>): Manifest
  {
    Manifest(
      s.toolkit, s.version, auth, title,
      if previous.Some? then previous.value.description else rules.bounded(s.description, 240).UnwrapOr(title),
      if previous.Some? then previous.value.securityDescription else rules.securityDescription(title, auth),
      if previous.Some? then previous.value.preset else rules.preset,
      validation, arguments, Tidied(ReviewOf(previous)), capabilities)
  }

  function Draft(rules: Rules, s: Snapshot, previous: Option<Manifest>, given: Option<Arguments>): Outcome<Manifest> {
    if (previous.Some? && previous.value.toolkit != s.toolkit) || s.auth.None? then Thrown
    else if Overridden(ReviewOf(previous)) then Thrown
    else
      var title := if previous.Some? then previous.value.title else s.name;
      match Capabilities(rules, s.toolkit, title, s.tools, ReviewOf(previous), CapabilitiesOf(previous))
      case Thrown => Thrown
      case Ok(capabilities) =>
        var arguments :=
          if given.Some? then given else if previous.Some? then previous.value.validationArguments else None;
        var before := if previous.Some? then Some(previous.value.validationCapability) else None;
        match Chosen(rules, capabilities, arguments, before)
        case None => Thrown
        case Some(validation) =>
          if !Fresh(arguments, validation) then Thrown
          else Parse(rules, Composed(rules, s, s.auth.value, previous, title, validation.id, arguments, capabilities))
  }

  // ---- checking ----

  /** Every tool a review names. */
  function Reviewed(r: Review): set<string> {
    (set slug | slug in r.add) + r.drop.Keys + r.allowArguments.Keys
    + (if r.withholdArguments.Some? then r.withholdArguments.value.Keys else {})
    + (if r.allowValues.Some? then r.allowValues.value.Keys else {})
  }

  function Known(s: Snapshot): set<string> {
    set t | t in s.tools :: t.slug
  }

  datatype Problem =
    | Invalid | WrongSnapshot | UnknownTool(slug: string) | DraftFails | AuthDiffers | ValidationDiffers
    | Exposes(slug: string) | Differs(slug: string) | Omits(slug: string) | NotInOrder

  function Unknown(slugs: set<string>): set<Problem> {
    set slug | slug in slugs :: UnknownTool(slug)
  }

  function CapabilityProblems(capabilities: seq<Capability>, expected: seq<Capability>): set<Problem> {
    (set c | c in capabilities && Previous(expected, c.tool).None? :: Exposes(c.tool))
    + (set c | c in capabilities && Previous(expected, c.tool).Some? && Previous(expected, c.tool).value != c ::
         Differs(c.tool))
    + (set e | e in expected && Previous(capabilities, e.tool).None? :: Omits(e.tool))
  }

  /** `checkComposioManifest`, as the set of problems it lists. */
  function Check(rules: Rules, m: Manifest, s: Snapshot): set<Problem> {
    if Parse(rules, m).Thrown? then {Invalid}
    else if s.toolkit != m.toolkit || s.version != m.version then {WrongSnapshot}
    else
      var unknown := Unknown(Reviewed(m.review) - Known(s));
      match Draft(rules, s, Some(m), None)
      case Thrown => unknown + {DraftFails}
      case Ok(expected) =>
        var problems := unknown
          + (if m.auth != expected.auth then {AuthDiffers} else {})
          + (if m.validationCapability != expected.validationCapability then {ValidationDiffers} else {})
          + CapabilityProblems(m.capabilities, expected.capabilities);
        if problems == {} && m != expected then {NotInOrder} else problems
  }
}
