/**
 * The draft loop as the source writes it (scripts/lib/composio-manifests.ts:607-688): capabilities are pushed
 * tool by tool.
 */
module ConnectorDrafter {
  import opened Common
  import opened ConnectorDraft
  import opened ConnectorFixpoint

  /** Capabilities collected so far, in front of those of the remaining tools. */
  ghost function Before(capabilities: seq<Capability>, rest: Outcome<seq<Capability>>): Outcome<seq<Capability>> {
    if rest.Thrown? then Thrown else Ok(capabilities + rest.value)
  }

  lemma BeforeNothing(rest: Outcome<seq<Capability>>)
    ensures Before([], rest) == rest
  {
    if rest.Ok? {
      assert [] + rest.value == rest.value;
    }
  }

  lemma NoMoreTools(
    rules: Rules, toolkit: string, title: string, tools: seq<Tool>, review: Review, kept: seq<Capability>,
    capabilities: seq<Capability>)
    ensures Before(capabilities, Capabilities(rules, toolkit, title, tools[|tools|..], review, kept))
            == Ok(capabilities)
  {
    assert tools[|tools|..] == [] && capabilities + [] == capabilities;
  }

  /** One tool, in front of the rest. */
  lemma OneTool(
    rules: Rules, toolkit: string, title: string, tools: seq<Tool>, i: nat, review: Review, kept: seq<Capability>,
    capabilities: seq<Capability>)
    requires i < |tools|
    ensures var core := CoreOf(rules, toolkit, tools[i], review);
            var more := Capabilities(rules, toolkit, title, tools[i + 1..], review, kept);
            Before(capabilities, Capabilities(rules, toolkit, title, tools[i..], review, kept))
            == match core
               case Throws => Thrown
               case Skipped => Before(capabilities, more)
               case Core(_, _, _, _, _, _) =>
                 Before(capabilities + [Filled(rules, title, tools[i], core, Previous(kept, tools[i].slug))], more)
  {
    var left := tools[i..];
    assert left[0] == tools[i] && left[1..] == tools[i + 1..];
    var core := CoreOf(rules, toolkit, tools[i], review);
    var more := Capabilities(rules, toolkit, title, tools[i + 1..], review, kept);
    if core.Core? && more.Ok? {
      var c := Filled(rules, title, tools[i], core, Previous(kept, tools[i].slug));
      assert capabilities + ([c] + more.value) == capabilities + [c] + more.value;
    }
  }

  method CollectCapabilities(
    rules: Rules, toolkit: string, title: string, tools: seq<Tool>, review: Review, kept: seq<Capability>)
    returns (r: Outcome<seq<Capability>>)
    ensures r == Capabilities(rules, toolkit, title, tools, review, kept)
  {
    var capabilities: seq<Capability> := [];
    ghost var whole := Capabilities(rules, toolkit, title, tools, review, kept);
    assert tools[0..] == tools;
    BeforeNothing(whole);
    for i := 0 to |tools|
      invariant whole == Before(capabilities, Capabilities(rules, toolkit, title, tools[i..], review, kept))
    {
      OneTool(rules, toolkit, title, tools, i, review, kept, capabilities);
      var core := CoreOf(rules, toolkit, tools[i], review);
      if core.Throws? {
        return Thrown;
      }
      if core.Core? {
        capabilities := capabilities + [Filled(rules, title, tools[i], core, Previous(kept, tools[i].slug))];
      }
    }
    NoMoreTools(rules, toolkit, title, tools, review, kept, capabilities);
    r := Ok(capabilities);
  }

  /** A whole draft. What it returns, it returns again when it is drafted from its own result. */
  method DraftManifest(rules: Rules, s: Snapshot, previous: Option<Manifest>, given: Option<Arguments>)
    returns (r: Outcome<Manifest>)
    ensures r == Draft(rules, s, previous, given)
    ensures r.Ok? && DistinctSlugs(s.tools) ==> Draft(rules, s, Some(r.value), None) == r
  {
    if Draft(rules, s, previous, given).Ok? && DistinctSlugs(s.tools) {
      DraftIsFixpoint(rules, s, previous, given);
    }
    if (previous.Some? && previous.value.toolkit != s.toolkit) || s.auth.None? || Overridden(ReviewOf(previous)) {
      return Thrown;
    }
    var title := if previous.Some? then previous.value.title else s.name;
    var capabilities := CollectCapabilities(rules, s.toolkit, title, s.tools, ReviewOf(previous),
        CapabilitiesOf(previous));
    if capabilities.Thrown? {
      return Thrown;
    }
    var arguments := if given.Some? then given else if previous.Some? then previous.value.validationArguments else None;
    var named := if previous.Some? then Some(previous.value.validationCapability) else None;
    var validation := Chosen(rules, capabilities.value, arguments, named);
    if validation.None? || !Fresh(arguments, validation.value) {
      return Thrown;
    }
    r := Parse(rules,
      Composed(rules, s, s.auth.value, previous, title, validation.value.id, arguments, capabilities.value));
  }
}
