/** What a draft may expose (scripts/lib/composio-manifests.ts:607-688), tool by tool. */
module ConnectorSafety {
  import opened Common
  import opened ConnectorSchema
  import opened ConnectorTheorems
  import opened ConnectorDraft
  import opened ConnectorFixpoint

  /** Review added the tool, or it is important and its effect needs no review; and review did not drop it. */
  ghost predicate Admitted(tool: Tool, review: Review, effect: Effect) {
    && (tool.slug in review.add || (tool.important && !NeedsReview(effect)))
    && (tool.slug in review.drop ==> review.drop[tool.slug] == "")
  }

  /**
   * The input of a capability is derived from the tool under the review of that tool: it reads the
   * tool's schema faithfully within all limits, every argument review denies is recorded as withheld,
   * and everything withheld is written into the capability.
   */
  ghost predicate Vetted(rules: Rules, tool: Tool, review: Review, c: Capability) {
    var policy := PolicyFor(rules, tool, c.write, review);
    var withheld := c.withheld.UnwrapOr(map[]).Keys;
    && c.input.Obj? && Faithful(policy, withheld, tool.input, c.input, "") && Within(c.input, LIMIT_DEPTH)
    && Paths(c.input, "") !! policy.deny.Keys
    && policy.deny.Keys <= withheld
    && |c.toolName| <= 64
  }

  /**
   * A read capability keeps no argument that a rule withholds, and a write that keeps one is administrative
   * or destructive.
   */
  ghost predicate Honest(rules: Rules, tool: Tool, review: Review, c: Capability) {
    var kept := DeriveInput(PolicyFor(rules, tool, c.write, review), tool.input).notes.allowedKept;
    && (!c.write ==> c.effect == ReadEffect && kept == map[])
    && (kept != map[] ==> c.effect == Administrative || c.effect == Destructive)
  }

  ghost predicate Safe(rules: Rules, tool: Tool, review: Review, c: Capability) {
    c.tool == tool.slug && Admitted(tool, review, c.effect) && Vetted(rules, tool, review, c)
      && Honest(rules, tool, review, c)
  }

  lemma EmptyMap(m: map<string, string>)
    ensures |m| == 0 <==> m == map[]
  {
  }

  /** What a finished tool takes over from its derivation. */
  lemma FinishParts(
    rules: Rules, toolkit: string, tool: Tool, review: Review, name: string, write: bool, effect: Effect)
    requires Finish(rules, toolkit, tool, review, name, write, effect).Core?
    ensures var core := Finish(rules, toolkit, tool, review, name, write, effect);
            var policy := PolicyFor(rules, tool, write, review);
            var input := DeriveInput(policy, tool.input);
            && core.write == write && |core.toolName| <= 64
            && input.derived == Derived(core.input)
            && core.withheld.UnwrapOr(map[]) == input.notes.withheld
            && policy.deny.Keys <= input.notes.withheld.Keys
  {
    var policy := PolicyFor(rules, tool, write, review);
    var input := DeriveInput(policy, tool.input);
    EmptyMap(input.notes.withheld);
  }

  lemma FinishIsVetted(
    rules: Rules, toolkit: string, tool: Tool, review: Review, name: string, write: bool, effect: Effect)
    requires Finish(rules, toolkit, tool, review, name, write, effect).Core?
    ensures var core := Finish(rules, toolkit, tool, review, name, write, effect);
            var policy := PolicyFor(rules, tool, write, review);
            var withheld := core.withheld.UnwrapOr(map[]).Keys;
            && core.write == write && |core.toolName| <= 64
            && core.input.Obj? && Faithful(policy, withheld, tool.input, core.input, "")
                 && Within(core.input, LIMIT_DEPTH)
            && Paths(core.input, "") !! policy.deny.Keys && policy.deny.Keys <= withheld
  {
    FinishParts(rules, toolkit, tool, review, name, write, effect);
    DerivedInputIsSafe(PolicyFor(rules, tool, write, review), tool.input);
  }

  lemma FinishIsHonest(
    rules: Rules, toolkit: string, tool: Tool, review: Review, name: string, write: bool, effect: Effect)
    requires Finish(rules, toolkit, tool, review, name, write, effect).Core?
    ensures var core := Finish(rules, toolkit, tool, review, name, write, effect);
            var kept := DeriveInput(PolicyFor(rules, tool, write, review), tool.input).notes.allowedKept;
            && (NeedsReview(core.effect) ==> tool.slug in review.add)
            && (!write ==> core.effect == effect && kept == map[])
            && (kept != map[] ==> core.effect == Administrative || core.effect == Destructive)
  {
    EmptyMap(DeriveInput(PolicyFor(rules, tool, write, review), tool.input).notes.allowedKept);
  }

  lemma CoreIsSafe(
    rules: Rules, toolkit: string, title: string, tool: Tool, review: Review, previous: Option<Capability>)
    requires CoreOf(rules, toolkit, tool, review).Core?
    ensures Safe(rules, tool, review, Filled(rules, title, tool, CoreOf(rules, toolkit, tool, review), previous))
  {
    var name := rules.localName(toolkit, tool.slug);
    match rules.classify(name, tool)
    case Reads =>
      FinishIsVetted(rules, toolkit, tool, review, name, false, ReadEffect);
      FinishIsHonest(rules, toolkit, tool, review, name, false, ReadEffect);
    case Writes(effect) =>
      FinishIsVetted(rules, toolkit, tool, review, name, true, effect);
      FinishIsHonest(rules, toolkit, tool, review, name, true, effect);
  }

  lemma {:induction false} CapabilitiesAreSafe(
    rules: Rules, toolkit: string, title: string, tools: seq<Tool>, review: Review, kept: seq<Capability>,
    c: Capability)
    requires Capabilities(rules, toolkit, title, tools, review, kept).Ok?
    requires c in Capabilities(rules, toolkit, title, tools, review, kept).value
    ensures exists tool :: tool in tools && Safe(rules, tool, review, c)
    decreases |tools|
  {
    var core := CoreOf(rules, toolkit, tools[0], review);
    if core.Core? && c == Filled(rules, title, tools[0], core, Previous(kept, tools[0].slug)) {
      CoreIsSafe(rules, toolkit, title, tools[0], review, Previous(kept, tools[0].slug));
    } else {
      CapabilitiesAreSafe(rules, toolkit, title, tools[1..], review, kept, c);
      var tool :| tool in tools[1..] && Safe(rules, tool, review, c);
      assert tool in tools;
    }
  }

  /**
   * Every capability of a draft comes from a tool of the snapshot that review admits: a tool that review
   * drops never appears, an effect that needs review appears only if review adds the tool, a read keeps
   * no argument that a rule withholds, and the input is vetted.
   */
  lemma DraftExposesOnlyReviewed(
    rules: Rules, s: Snapshot, previous: Option<Manifest>, given: Option<Arguments>, c: Capability)
    requires Draft(rules, s, previous, given).Ok? && c in Draft(rules, s, previous, given).value.capabilities
    ensures exists tool :: tool in s.tools && Safe(rules, tool, ReviewOf(previous), c)
  {
    DraftParts(rules, s, previous, given);
    CapabilitiesAreSafe(rules, s.toolkit, Draft(rules, s, previous, given).value.title, s.tools, ReviewOf(previous),
                        CapabilitiesOf(previous), c);
  }
}
