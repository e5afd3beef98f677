/** Drafting is a fixpoint, and the checker accepts exactly the fixpoints. */
module ConnectorFixpoint {
  import opened Common
  import opened ConnectorSchema
  import opened ConnectorDraft

  // ---- tidying a review ----

  ghost predicate Ascending(s: seq<string>) {
    forall i :: 0 <= i < |s| - 1 ==> Before(s[i], s[i + 1])
  }

  lemma {:induction false} BeforeIsTotal(a: string, b: string)
    ensures Before(a, b) || Before(b, a)
    decreases |a|
  {
    if a != [] && b != [] && a[0] == b[0] {
      BeforeIsTotal(a[1..], b[1..]);
    }
  }

  lemma {:induction false} InsertedIs(x: string, s: seq<string>)
    ensures forall y :: y in Inserted(x, s) <==> y == x || y in s
    ensures Ascending(s) ==> Ascending(Inserted(x, s))
    ensures Inserted(x, s) != [] && (Inserted(x, s)[0] == x || (s != [] && Inserted(x, s)[0] == s[0]))
    ensures Distinct(s) && x !in s ==> Distinct(Inserted(x, s))
  {
    if s != [] && !Before(x, s[0]) {
      BeforeIsTotal(x, s[0]);
      InsertedIs(x, s[1..]);
      assert s == [s[0]] + s[1..];
      assert Distinct(s) ==> s[0] !in s[1..];
    }
  }

  lemma {:induction false} SortedIs(s: seq<string>)
    ensures forall y :: y in Sorted(s) <==> y in s
    ensures Ascending(Sorted(s)) && (Distinct(s) ==> Distinct(Sorted(s)))
  {
    if s != [] {
      SortedIs(s[1..]);
      InsertedIs(s[0], Sorted(s[1..]));
      assert s == [s[0]] + s[1..];
      assert Distinct(s) ==> s[0] !in s[1..];
    }
  }

  lemma {:induction false} SortedStays(s: seq<string>)
    requires Ascending(s)
    ensures Sorted(s) == s
  {
    if s != [] {
      SortedStays(s[1..]);
    }
  }

  lemma {:induction false} DedupStays(s: seq<string>)
    requires Distinct(s)
    ensures Dedup(s) == s
    decreases |s|
  {
    if s != [] {
      DedupStays(s[..|s| - 1]);
      assert s == s[..|s| - 1] + [s[|s| - 1]];
      assert s[|s| - 1] !in s[..|s| - 1];
    }
  }

  /** A tidied review says the same and stays as it is. */
  lemma TidiedStays(r: Review)
    ensures Tidied(Tidied(r)) == Tidied(r)
    ensures forall slug :: slug in Tidied(r).add <==> slug in r.add
  {
    DedupIs(r.add);
    SortedIs(Dedup(r.add));
    DedupStays(Sorted(Dedup(r.add)));
    SortedStays(Sorted(Dedup(r.add)));
  }

  lemma EmptyEntry<T>(m: Option<map<string, map<string, T>>>, slug: string)
    ensures Entry(NonEmpty(m), slug) == Entry(m, slug)
  {
  }

  lemma SamePolicy(rules: Rules, tool: Tool, write: bool, r: Review)
    ensures PolicyFor(rules, tool, write, Tidied(r)) == PolicyFor(rules, tool, write, r)
  {
    EmptyEntry(r.withholdArguments, tool.slug);
    EmptyEntry(r.allowValues, tool.slug);
  }

  lemma SameFinish(rules: Rules, toolkit: string, tool: Tool, r: Review, name: string, write: bool, effect: Effect)
    ensures Finish(rules, toolkit, tool, Tidied(r), name, write, effect)
            == Finish(rules, toolkit, tool, r, name, write, effect)
  {
    SamePolicy(rules, tool, write, r);
    TidiedStays(r);
  }

  lemma SameCore(rules: Rules, toolkit: string, tool: Tool, r: Review)
    ensures CoreOf(rules, toolkit, tool, Tidied(r)) == CoreOf(rules, toolkit, tool, r)
  {
    TidiedStays(r);
    var name := rules.localName(toolkit, tool.slug);
    match rules.classify(name, tool)
    case Excluded =>
    case Reads => SameFinish(rules, toolkit, tool, r, name, false, ReadEffect);
    case Writes(effect) => SameFinish(rules, toolkit, tool, r, name, true, effect);
  }

  // ---- capabilities ----

  ghost predicate DistinctSlugs(tools: seq<Tool>) {
    forall i, j :: 0 <= i < j < |tools| ==> tools[i].slug != tools[j].slug
  }

  ghost predicate DistinctTools(capabilities: seq<Capability>) {
    forall i, j :: 0 <= i < j < |capabilities| ==> capabilities[i].tool != capabilities[j].tool
  }

  lemma {:induction false} CapabilityTools(
    rules: Rules, toolkit: string, title: string, tools: seq<Tool>, review: Review, kept: seq<Capability>)
    requires DistinctSlugs(tools) && Capabilities(rules, toolkit, title, tools, review, kept).Ok?
    ensures var all := Capabilities(rules, toolkit, title, tools, review, kept).value;
            DistinctTools(all) && forall c :: c in all ==> exists t :: t in tools && t.slug == c.tool
    decreases |tools|
  {
    if tools != [] {
      CapabilityTools(rules, toolkit, title, tools[1..], review, kept);
      var rest := Capabilities(rules, toolkit, title, tools[1..], review, kept).value;
      forall c | c in rest ensures (exists t :: t in tools && t.slug == c.tool) && c.tool != tools[0].slug {
        var t :| t in tools[1..] && t.slug == c.tool;
        assert t in tools;
      }
      assert tools[0] in tools;
    }
  }

  lemma {:induction false} PreviousIs(capabilities: seq<Capability>, c: Capability)
    requires DistinctTools(capabilities) && c in capabilities
    ensures Previous(capabilities, c.tool) == Some(c)
    decreases |capabilities|
  {
    var last := capabilities[|capabilities| - 1];
    if last != c {
      assert capabilities == capabilities[..|capabilities| - 1] + [last];
      var i :| 0 <= i < |capabilities| - 1 && capabilities[i] == c;
      PreviousIs(capabilities[..|capabilities| - 1], c);
    }
  }

  /** A capability filled from itself stays as it is. */
  lemma FilledStays(rules: Rules, title: string, tool: Tool, core: Core, previous: Option<Capability>)
    requires core.Core?
    ensures var c := Filled(rules, title, tool, core, previous); Filled(rules, title, tool, core, Some(c)) == c
  {
  }

  lemma {:induction false} CapabilitiesStay(
    rules: Rules, toolkit: string, title: string, tools: seq<Tool>, r: Review, kept: seq<Capability>,
    all: seq<Capability>)
    requires Capabilities(rules, toolkit, title, tools, r, kept).Ok?
    requires forall c :: c in Capabilities(rules, toolkit, title, tools, r, kept).value ==>
             Previous(all, c.tool) == Some(c)
    ensures Capabilities(rules, toolkit, title, tools, Tidied(r), all)
            == Capabilities(rules, toolkit, title, tools, r, kept)
    decreases |tools|
  {
    if tools != [] {
      SameCore(rules, toolkit, tools[0], r);
      var core := CoreOf(rules, toolkit, tools[0], r);
      var now := Capabilities(rules, toolkit, title, tools, r, kept).value;
      if core.Core? {
        var c := Filled(rules, title, tools[0], core, Previous(kept, tools[0].slug));
        assert now[0] == c && c in now;
        FilledStays(rules, title, tools[0], core, Previous(kept, tools[0].slug));
        forall d | d in Capabilities(rules, toolkit, title, tools[1..], r, kept).value
          ensures Previous(all, d.tool) == Some(d)
        {
          assert d in now;
        }
      }
      CapabilitiesStay(rules, toolkit, title, tools[1..], r, kept, all);
    }
  }

  // ---- validation ----

  lemma {:induction false} FirstStays(
    capabilities: seq<Capability>, test: Capability -> bool, stronger: Capability -> bool)
    requires FirstWhere(capabilities, test).Some? && stronger(FirstWhere(capabilities, test).value)
    requires forall c :: stronger(c) ==> test(c)
    ensures FirstWhere(capabilities, stronger) == FirstWhere(capabilities, test)
  {
    if !test(capabilities[0]) {
      FirstStays(capabilities[1..], test, stronger);
    }
  }

  lemma ChosenStays(rules: Rules, m: Manifest)
    requires Validates(rules, m)
    ensures var chosen := Chosen(rules, m.capabilities, m.validationArguments, Some(m.validationCapability));
            chosen.Some? && chosen.value.id == m.validationCapability && Fresh(m.validationArguments, chosen.value)
  {
    FirstStays(m.capabilities, (c: Capability) => c.id == m.validationCapability,
               (c: Capability) => Candidate(m.validationArguments, c) && Some(m.validationCapability) == Some(c.id));
  }

  // ---- the theorems ----

  lemma DraftParts(rules: Rules, s: Snapshot, previous: Option<Manifest>, given: Option<Arguments>)
    requires Draft(rules, s, previous, given).Ok?
    ensures var m := Draft(rules, s, previous, given).value;
            && Parse(rules, m) == Ok(m)
            && m.toolkit == s.toolkit && m.version == s.version && s.auth == Some(m.auth)
            && m.review == Tidied(ReviewOf(previous)) && !Overridden(ReviewOf(previous))
            && Capabilities(rules, s.toolkit, m.title, s.tools, ReviewOf(previous), CapabilitiesOf(previous))
                 == Ok(m.capabilities)
  {
  }

  lemma NothingOverridden(r: Review)
    requires !Overridden(r)
    ensures !Overridden(Tidied(r))
  {
    TidiedStays(r);
    forall i | 0 <= i < |Tidied(r).add| ensures Tidied(r).add[i] !in r.drop {
      assert Tidied(r).add[i] in r.add;
    }
  }

  /** Drafting again from a manifest that needs no tidying, whose capabilities stay and whose validation call holds. */
  lemma DraftStays(rules: Rules, s: Snapshot, m: Manifest)
    requires m.toolkit == s.toolkit && m.version == s.version && s.auth == Some(m.auth) && Parse(rules, m) == Ok(m)
    requires Tidied(m.review) == m.review && !Overridden(m.review)
    requires Capabilities(rules, s.toolkit, m.title, s.tools, m.review, m.capabilities) == Ok(m.capabilities)
    ensures Draft(rules, s, Some(m), None) == Ok(m)
  {
    ChosenStays(rules, m);
  }

  /** Drafting is a fixpoint: drafting again from a drafted manifest and the same snapshot returns that manifest. */
  lemma DraftIsFixpoint(rules: Rules, s: Snapshot, previous: Option<Manifest>, given: Option<Arguments>)
    requires DistinctSlugs(s.tools) && Draft(rules, s, previous, given).Ok?
    ensures var m := Draft(rules, s, previous, given).value; Draft(rules, s, Some(m), None) == Ok(m)
    ensures DistinctTools(Draft(rules, s, previous, given).value.capabilities)
  {
    var m := Draft(rules, s, previous, given).value;
    var review, kept := ReviewOf(previous), CapabilitiesOf(previous);
    DraftParts(rules, s, previous, given);
    TidiedStays(review);
    NothingOverridden(review);
    CapabilityTools(rules, s.toolkit, m.title, s.tools, review, kept);
    forall c | c in m.capabilities ensures Previous(m.capabilities, c.tool) == Some(c) {
      PreviousIs(m.capabilities, c);
    }
    CapabilitiesStay(rules, s.toolkit, m.title, s.tools, review, kept, m.capabilities);
    DraftStays(rules, s, m);
  }

  lemma NoCapabilityProblems(capabilities: seq<Capability>)
    requires DistinctTools(capabilities)
    ensures CapabilityProblems(capabilities, capabilities) == {}
  {
    forall c | c in capabilities ensures Previous(capabilities, c.tool) == Some(c) {
      PreviousIs(capabilities, c);
    }
  }

  /**
   * The checker accepts exactly the manifests that drafting returns unchanged and whose reviewed tools the
   * snapshot holds.
   */
  lemma CheckAcceptsFixpoints(rules: Rules, m: Manifest, s: Snapshot)
    requires DistinctSlugs(s.tools)
    ensures Check(rules, m, s) == {} <==>
              && Parse(rules, m).Ok? && s.toolkit == m.toolkit && s.version == m.version
              && Reviewed(m.review) <= Known(s)
              && Draft(rules, s, Some(m), None) == Ok(m)
  {
    var missing := Reviewed(m.review) - Known(s);
    if Reviewed(m.review) <= Known(s) {
      assert missing == {};
    } else {
      var slug :| slug in Reviewed(m.review) && slug !in Known(s);
      assert slug in missing;
    }
    UnknownIsEmpty(missing);
    if Parse(rules, m).Ok? && s.toolkit == m.toolkit && s.version == m.version
        && Draft(rules, s, Some(m), None) == Ok(m) {
      DraftIsFixpoint(rules, s, Some(m), None);
      NoCapabilityProblems(m.capabilities);
    }
  }

  lemma UnknownIsEmpty(slugs: set<string>)
    ensures Unknown(slugs) == {} <==> slugs == {}
  {
    if slug :| slug in slugs {
      assert UnknownTool(slug) in Unknown(slugs);
    }
  }

  /** A draft has no other problem than reviewed tools the snapshot lacks. */
  lemma DraftChecksClean(rules: Rules, s: Snapshot, previous: Option<Manifest>, given: Option<Arguments>)
    requires DistinctSlugs(s.tools) && Draft(rules, s, previous, given).Ok?
    ensures var m := Draft(rules, s, previous, given).value;
            Check(rules, m, s) == {} <==> Reviewed(m.review) <= Known(s)
  {
    DraftIsFixpoint(rules, s, previous, given);
    DraftParts(rules, s, previous, given);
    CheckAcceptsFixpoints(rules, Draft(rules, s, previous, given).value, s);
  }
}
