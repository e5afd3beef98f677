/**
 * The copy layer of activity statuses (src/activity/semantic.ts:540-577, 588-677, 695-860, 964-968).
 * Text length is counted in UTF-16 units, as the source counts it.
 */
module Narration {
  import opened Common

  // ---- text ----

  /** The length of a text in UTF-16 units. */
  function Units(s: string): nat {
    if s == "" then 0 else (if s[0] < '\U{10000}' then 1 else 2) + Units(s[1..])
  }

  predicate Control(c: char) {
    c <= '\U{1F}' || c == '\U{7F}'
  }

  /** Characters with a meaning in Slack's markup. */
  predicate Markup(c: char) {
    c in {'<', '>', '&', '*', '_', '~', '`'}
  }

  function WithoutControls(s: string): string {
    if s == "" then "" else [if Control(s[0]) then ' ' else s[0]] + WithoutControls(s[1..])
  }

  function WithoutMarkup(s: string): string {
    if s == "" then "" else (if Markup(s[0]) then "" else [s[0]]) + WithoutMarkup(s[1..])
  }

  /** Every run of white space becomes one space. */
  function Squeezed(s: string): string {
    if s == "" then ""
    else if !IsSpace(s[0]) then [s[0]] + Squeezed(s[1..])
    else if |s| > 1 && IsSpace(s[1]) then Squeezed(s[1..])
    else " " + Squeezed(s[1..])
  }

  /** `safeActivityLabel` */
  function SafeLabel(s: string): string {
    var normal := Trim(Squeezed(WithoutMarkup(WithoutControls(s))));
    if normal == "" then "connection" else normal
  }

  /** The longest prefix of at most `n` units; a cut never splits a character. */
  function Prefix(s: string, n: nat): string {
    if s == "" then ""
    else
      var first := if s[0] < '\U{10000}' then 1 else 2;
      if first > n then "" else [s[0]] + Prefix(s[1..], n - first)
  }

  function Truncated(s: string, limit: nat): string {
    if Units(s) <= limit then s
    else TrimEnd(Prefix(s, if limit > 2 then limit - 1 else 1)) + "…"
  }

  // ---- statuses ----

  datatype Kind = Preparing | Checking | Reading | Writing | Updating | Executing

  datatype Family =
    | ManagedConnector | CustomConnection | Skill | Repository | Memory | ScheduledWork | Workspace
    | ConnectionSetup | AgentAuthoring | Artifact | Web | Response | UnknownFamily | Internal

  datatype Phase = Thinking | Working | Reviewing | Drafting | Reassessing

  datatype Status = Status(kind: Kind, action: string, item: string, family: Family, phase: Phase, text: string)

  const THINKING := Status(Preparing, "Thinking", "the request", UnknownFamily, Thinking, "Thinking…")

  /** The word lists and the credential detection. */
  datatype Checks = Checks(
    credential: string -> bool,
    managedName: string -> bool,
    configuredName: string -> bool,
    hostName: string -> bool,
    queryText: string -> bool,
    mentions: (string, string) -> bool)

  /** `activityStatus` */
  function ActivityStatus(
    checks: Checks, kind: Kind, action: string, item: string, family: Family, phase: Phase): Status {
    var safeAction := SafeLabel(action);
    var candidate := SafeLabel(item);
    var safeItem := if checks.credential(candidate) then "the current item" else candidate;
    if && kind == Preparing && safeAction == "Thinking" && safeItem == "the request"
       && family == UnknownFamily && phase == Thinking
    then THINKING
    else
      var room := if 48 - Units(safeAction) > 1 then 48 - Units(safeAction) else 1;
      var bounded := Truncated(safeItem, room);
      Status(kind, safeAction, bounded, family, phase, safeAction + " " + bounded + "…")
  }

  /** `isSafeTypedActivityStatus` on a status of the right shape. */
  predicate WireAccepts(checks: Checks, s: Status) {
    Units(s.text) <= 50 &&
    if s.action == "Thinking" && s.item == "the request" then
      s.kind == Preparing && s.family == UnknownFamily && s.phase == Thinking && s.text == "Thinking…"
    else ActivityStatus(checks, s.kind, s.action, s.item, s.family, s.phase).text == s.text
  }

  // ---- descriptors ----

  datatype Operation = Send | Run | Draft | Apply | Search | OtherOperation

  datatype LabelKind = ManagedName | ConnectionName | SkillName | WebHost | WebQuery

  datatype Label = Label(id: string, kind: LabelKind, text: string)

  datatype Role = Work | AnswerGeneration | InternalHidden

  datatype Descriptor = Descriptor(
    operation: Operation, target: Family, name: Option<Label>, item: string, readOnly: bool, role: Role)

  predicate SafeHost(checks: Checks, text: string) {
    Units(text) <= 41 && checks.hostName(text)
  }

  predicate SafeQuery(checks: Checks, text: string) {
    Units(text) <= 36 && checks.queryText(text)
  }

  /** The part of `isSemanticActivityDescriptor` that concerns labels. */
  predicate IsDescriptor(checks: Checks, d: Descriptor) {
    match d.name
    case None => d.target != ManagedConnector
    case Some(name) =>
      match d.target
      case ManagedConnector => name.kind == ManagedName && checks.managedName(name.text)
      case CustomConnection => name.kind == ConnectionName && checks.configuredName(name.text)
      case Skill => name.kind == SkillName && checks.configuredName(name.text)
      case Web => IsWebLabel(checks, name)
      case ConnectionSetup => IsWebLabel(checks, name)
      case _ => false
  }

  predicate IsWebLabel(checks: Checks, name: Label) {
    || (name.kind == WebHost && SafeHost(checks, name.text))
    || (name.kind == WebQuery && SafeQuery(checks, name.text))
  }

  datatype Event = Started | Settled(succeeded: bool)

  /** What narrations say the Agent does. */
  datatype Action =
    | WorkingOn
    | ReviewingIt
    | ReassessingIt
    | CheckingIt
    | SendingWith
    | UpdatingIt
    | Following
    | Using
    | RunningIt
    | Editing
    | Inspecting
    | Testing
    | SettingUp
    | PreparingIt
    | Applying
    | Creating
    | SearchingFor
    | Searching
    | ReadingIt
    | DraftingIt

  function Verb(a: Action): string {
    match a
    case WorkingOn => "Working on"
    case ReviewingIt => "Reviewing"
    case ReassessingIt => "Reassessing"
    case CheckingIt => "Checking"
    case SendingWith => "Sending with"
    case UpdatingIt => "Updating"
    case Following => "Following"
    case Using => "Using"
    case RunningIt => "Running"
    case Editing => "Editing"
    case Inspecting => "Inspecting"
    case Testing => "Testing"
    case SettingUp => "Setting up"
    case PreparingIt => "Preparing"
    case Applying => "Applying"
    case Creating => "Creating"
    case SearchingFor => "Searching:"
    case Searching => "Searching"
    case ReadingIt => "Reading"
    case DraftingIt => "Drafting"
  }

  /** An action, what it is done to, and the kind of activity it counts as. */
  datatype Copy = Copy(kind: Kind, action: Action, item: string)

  function Generic(e: Event): Copy {
    if e.Started? then Copy(Executing, WorkingOn, "the request")
    else if e.succeeded then Copy(Reading, ReviewingIt, "the results")
    else Copy(Preparing, ReassessingIt, "the request")
  }

  function BoundedOrGeneric(wish: Copy, e: Event): Copy {
    if Units(Verb(wish.action) + " " + wish.item + "…") > 50 then Generic(e) else wish
  }

  /** What a managed connector's work would say, before its length is looked at. */
  function ManagedWish(checks: Checks, d: Descriptor, name: string, e: Event): Copy {
    if e.Settled? then Copy(Reading, ReviewingIt, if checks.mentions(name, d.item) then name else name + " " + d.item)
    else if d.readOnly then Copy(Checking, CheckingIt, name)
    else if d.operation == Send then Copy(Updating, SendingWith, name)
    else Copy(Updating, UpdatingIt, d.item + " in " + name)
  }

  function ManagedCopy(checks: Checks, d: Descriptor, e: Event): Copy {
    if d.name.None? || !checks.managedName(d.name.value.text) then Generic(e)
    else BoundedOrGeneric(ManagedWish(checks, d, d.name.value.text, e), e)
  }

  /** `fittingLabel`: the configured name when it belongs to this family and fits between `before` and `after`. */
  function Fitting(checks: Checks, d: Descriptor, kind: LabelKind, before: string, after: string): Option<string> {
    if d.name.None? || d.name.value.kind != kind || !checks.configuredName(d.name.value.text) then None
    else if Units(before + d.name.value.text + after) <= 50 then Some(d.name.value.text)
    else None
  }

  function WebText(d: Descriptor, kind: LabelKind): Option<string> {
    if d.name.Some? && d.name.value.kind == kind then Some(d.name.value.text) else None
  }

  function FamilyCopy(checks: Checks, d: Descriptor, e: Event): Copy {
    var settled := e.Settled?;
    match d.target
    case CustomConnection =>
      var name := Fitting(checks, d, ConnectionName, "Reviewing ", " results…");
      if settled then Copy(Reading, ReviewingIt, if name.Some? then name.value + " results" else "the results")
      else if d.readOnly then Copy(Checking, CheckingIt, name.UnwrapOr("a connected service"))
      else Copy(Updating, UpdatingIt, name.UnwrapOr("a connected service"))
    case Skill =>
      var name := Fitting(checks, d, SkillName, "Following the ", " skill…");
      if settled then
        if name.Some? then Copy(Reading, Following, "the " + name.value + " skill")
        else Copy(Reading, ReviewingIt, "skill results")
      else Copy(Executing, Using, if name.Some? then "the " + name.value + " skill" else "a skill")
    case Repository =>
      if settled then
        Copy(Reading, ReviewingIt,
             if d.operation == Run then "test results" else if d.readOnly then "repository results" else "file changes")
      else if d.operation == Run then Copy(Executing, RunningIt, "tests")
      else if !d.readOnly then Copy(Updating, Editing, "files")
      else Copy(Checking, Inspecting, "the repository")
    case Memory =>
      if settled then Copy(Reading, ReviewingIt, "memory")
      else if d.readOnly then Copy(Checking, CheckingIt, "memory") else Copy(Updating, UpdatingIt, "memory")
    case ScheduledWork =>
      if settled then Copy(Reading, ReviewingIt, "scheduled work")
      else if d.readOnly then Copy(Checking, CheckingIt, "scheduled work")
      else Copy(Updating, UpdatingIt, "scheduled work")
    case Workspace =>
      if settled then Copy(Reading, ReviewingIt, "workspace settings")
      else Copy(Checking, Inspecting, "workspace settings")
    case ConnectionSetup =>
      if settled then Copy(Checking, CheckingIt, "the connection")
      else if WebText(d, WebHost).Some? then Copy(Checking, Testing, WebText(d, WebHost).value)
      else Copy(Updating, SettingUp, "a connection")
    case AgentAuthoring =>
      if settled then Copy(Reading, ReviewingIt, "Agent changes")
      else if d.operation == Draft then Copy(Writing, PreparingIt, "Agent changes")
      else if d.operation == Apply || !d.readOnly then Copy(Updating, Applying, "Agent changes")
      else Copy(Checking, Inspecting, "Agent settings")
    case Artifact =>
      if settled then Copy(Reading, ReviewingIt, "the artifact") else Copy(Writing, Creating, "an artifact")
    case Web =>
      if d.operation == Search then
        if settled then Copy(Reading, ReviewingIt, "the results")
        else if WebText(d, WebQuery).Some? then Copy(Reading, SearchingFor, "“" + WebText(d, WebQuery).value + "”")
        else Copy(Reading, Searching, "the web")
      else if settled then Copy(Reading, ReviewingIt, "the page")
      else Copy(Reading, ReadingIt, WebText(d, WebHost).UnwrapOr("a web page"))
    case _ => Generic(e)
  }

  function Said(checks: Checks, c: Copy, family: Family, phase: Phase): Status {
    ActivityStatus(checks, c.kind, Verb(c.action), c.item, family, phase)
  }

  /** `defaultSemanticPhase` on the actions that reach it. */
  function GenericPhase(e: Event): Phase {
    if e.Started? then Working else if e.succeeded then Reviewing else Reassessing
  }

  /** The copy of a narration with its family and phase, or nothing; a value that is no descriptor at all is absent. */
  function CopyOf(checks: Checks, value: Option<Descriptor>, e: Event): Option<(Copy, Family, Phase)> {
    if value.None? || !IsDescriptor(checks, value.value) then Some((Generic(e), UnknownFamily, GenericPhase(e)))
    else
      var d := value.value;
      if d.role == InternalHidden then None
      else if d.role == AnswerGeneration then
        if e.Started? then Some((Copy(Writing, DraftingIt, "the response"), Response, Drafting)) else None
      else if e.Settled? && !e.succeeded then
        Some((Copy(Preparing, ReassessingIt, "the request"), UnknownFamily, Reassessing))
      else if d.target == UnknownFamily then Some((Generic(e), UnknownFamily, GenericPhase(e)))
      else
        var phase := if e.Settled? then Reviewing else Working;
        var said := if d.target == ManagedConnector then ManagedCopy(checks, d, e) else FamilyCopy(checks, d, e);
        Some((said, d.target, phase))
  }

  /** `narrateSemanticActivity` */
  function Narrate(checks: Checks, value: Option<Descriptor>, e: Event): Option<Status> {
    match CopyOf(checks, value, e)
    case None => None
    case Some(c) => Some(Said(checks, c.0, c.1, c.2))
  }
}
