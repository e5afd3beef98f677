/**
 * The walk as the source writes it (scripts/lib/composio-manifests.ts:426-580), which notes down what it
 * withholds as it goes.
 */
module ConnectorWalk {
  import opened Common
  import S = ConnectorSchema
  import opened ConnectorTheorems

  /** Arguments kept so far, in front of what the rest of the loop keeps. */
  ghost function Before(arguments: seq<S.Argument>, rest: S.Kept): S.Kept {
    if rest.GivenUp? then rest else rest.(arguments := arguments + rest.arguments)
  }

  lemma BeforePrepend(arguments: seq<S.Argument>, argument: S.Argument, rest: S.Kept)
    ensures Before(arguments, S.Prepend(argument, rest)) == Before(arguments + [argument], rest)
  {
    if rest.Kept? {
      assert arguments + ([argument] + rest.arguments) == arguments + [argument] + rest.arguments;
    }
  }

  lemma {:induction false} ChildSmaller(properties: seq<S.Property>, i: nat)
    requires i < |properties|
    ensures S.Size(properties[i].child) <= S.SizeProps(properties)
  {
    if i > 0 {
      ChildSmaller(properties[1..], i - 1);
    }
  }

  class Walk {
    const policy: S.Policy
    var withheld: map<string, string>
    var allowedKept: map<string, string>
    var narrowed: set<string>

    function Now(): S.Notes
      reads this
    {
      S.Notes(withheld, allowedKept, narrowed)
    }

    constructor (policy: S.Policy)
      ensures Now() == S.NOTHING && this.policy == policy
    {
      this.policy := policy;
      withheld, allowedKept, narrowed := map[], map[], {};
    }

    method DeriveString(raw: S.Raw, where: string) returns (d: S.Derived)
      requires raw.Raw?
      modifies this
      ensures S.Result(Now(), d) == S.DeriveString(policy, raw, where, old(Now()))
    {
      var maxLength := S.AtMost(raw.maxLength, S.LIMIT_STRING);
      var minLength := S.AtLeast(raw.minLength, maxLength);
      var values := S.Enum(raw);
      if where in policy.values {
        var allowed := policy.values[where];
        if S.DropsDefault(raw, allowed) {
          return S.Unsupported(true);
        }
        if values.Some? && forall i :: 0 <= i < |allowed| ==> allowed[i] in values.value {
          values := Some(S.Only(values.value, allowed));
          narrowed := narrowed + {where};
        }
      }
      d := S.Derived(S.Str(maxLength, minLength, values));
    }

    /** The loop over the properties. */
    method DeriveArguments(raw: S.Raw, required: seq<string>, depth: nat, where: string) returns (kept: S.Kept)
      requires raw.Raw?
      modifies this
      ensures kept.notes == Now()
      ensures kept == S.DeriveArguments(policy, raw.properties, required, depth, where, old(Now()), 0)
      decreases S.Size(raw), S.Rank(raw), 0
    {
      var source := raw.properties;
      var properties: seq<S.Argument> := [];
      ghost var whole := S.DeriveArguments(policy, source, required, depth, where, Now(), 0);
      assert source[0..] == source;
      for i := 0 to |source|
        invariant whole
            == Before(properties, S.DeriveArguments(policy, source[i..], required, depth, where, Now(), |properties|))
      {
        ghost var more := source[i + 1..];
        assert source[i..] == [source[i]] + more;
        ChildSmaller(source, i);
        var outcome := DeriveArgument(source[i], required, depth, where, |properties|, raw, more);
        match outcome
        case None =>
        case Some(Derived(schema)) =>
          var argument := S.Argument(source[i].key, schema);
          BeforePrepend(properties, argument,
            S.DeriveArguments(policy, more, required, depth, where, Now(), |properties| + 1));
          properties := properties + [argument];
        case Some(Unsupported(excludesTool)) =>
          return S.GivenUp(Now(), excludesTool);
      }
      assert source[|source|..] == [];
      kept := S.Kept(Now(), properties);
    }

    /** One property: left out and noted, kept with its schema, or the end of the object. */
    method DeriveArgument(
      property: S.Property, required: seq<string>, depth: nat, where: string, count: nat,
      ghost raw: S.Raw, ghost more: seq<S.Property>)
      returns (outcome: Option<S.Derived>)
      requires S.Size(property.child) < S.Size(raw)
      modifies this
      ensures S.DeriveArguments(policy, [property] + more, required, depth, where, old(Now()), count)
                == match outcome
                   case None => S.DeriveArguments(policy, more, required, depth, where, Now(), count)
                   case Some(Derived(schema)) =>
                     S.Prepend(S.Argument(property.key, schema),
                               S.DeriveArguments(policy, more, required, depth, where, Now(), count + 1))
                   case Some(Unsupported(excludesTool)) => S.GivenUp(Now(), excludesTool)
      decreases S.Size(raw), S.Rank(raw), 0, 0
    {
      assert ([property] + more)[0] == property && ([property] + more)[1..] == more;
      var path := S.Join(where, property.key);
      var isRequired := property.key in required;
      var fate := S.FateOf(policy, property, isRequired, path);
      match fate
      case GiveUp(excludesTool) => outcome := Some(S.Unsupported(excludesTool));
      case Leave(reason) =>
        withheld := withheld[path := reason];
        outcome := None;
      case Keep(rule) =>
        var derived := S.Unsupported(false);
        if S.GoodName(property.key) && count < S.LIMIT_PROPERTIES {
          derived := DeriveNode(property.child, depth + 1, path, false);
        }
        if derived.Derived? {
          if rule.Some? {
            allowedKept := allowedKept[path := rule.value];
          }
          outcome := Some(derived);
        } else if derived.excludesTool || isRequired {
          outcome := Some(derived);
        } else {
          withheld := withheld[path := "unsupported schema"];
          outcome := None;
        }
    }

    /** The branches of a union, all of them in order. */
    method DeriveBranches(raw: S.Raw, branches: seq<S.Raw>, depth: nat, where: string) returns (all: seq<S.Derived>)
      requires forall i :: 0 <= i < |branches| ==> S.Smaller(branches[i], raw)
      modifies this
      ensures S.Results(Now(), all) == S.DeriveBranches(policy, raw, branches, depth, where, old(Now()))
      decreases S.Size(raw), S.Rank(raw), 0, |branches|
    {
      if branches == [] {
        return [];
      }
      assert S.Smaller(branches[0], raw);
      var first := S.Unsupported(false);
      if S.Primitive(branches[0]) {
        first := DeriveNode(branches[0], depth, where, false);
      }
      var rest := DeriveBranches(raw, branches[1..], depth, where);
      all := [first] + rest;
    }

    method DeriveNode(raw: S.Raw, depth: nat, where: string, root: bool) returns (d: S.Derived)
      modifies this
      ensures S.Result(Now(), d) == S.Derive(policy, raw, depth, where, root, old(Now()))
      decreases S.Size(raw), S.Rank(raw), 1
    {
      if depth > S.LIMIT_DEPTH || raw.NotAnObject? || raw.upload {
        return S.Unsupported(false);
      }
      var variants := S.Variants(raw);
      if variants.Some? {
        d := DeriveVariants(raw, S.Present(variants.value), depth, where);
        return;
      }
      match raw.kind
      case Single(TString) => d := DeriveString(raw, where);
      case Single(TInteger) => d := S.Derived(S.Num);
      case Single(TNumber) => d := S.Derived(S.Num);
      case Single(TBoolean) => d := S.Derived(S.Bool);
      case Single(TArray) =>
        var items := DeriveNode(raw.items, depth + 1, where + "[]", false);
        d := S.InArray(raw, S.Result(Now(), items)).derived;
      case Single(TObject) =>
        if raw.properties == [] && !root {
          return S.Unsupported(false);
        }
        var kept := DeriveArguments(raw, S.Dedup(raw.required), depth, where);
        d := S.AsObject(raw, root, kept).derived;
      case _ => d := S.Unsupported(false);
    }

    method DeriveVariants(raw: S.Raw, present: seq<S.Raw>, depth: nat, where: string) returns (d: S.Derived)
      requires depth <= S.LIMIT_DEPTH && raw.Raw? && !raw.upload && S.Variants(raw).Some?
               && present == S.Present(S.Variants(raw).value)
      modifies this
      ensures forall root :: S.Result(Now(), d) == S.Derive(policy, raw, depth, where, root, old(Now()))
      decreases S.Size(raw), S.Rank(raw), 0, |present| + 1
    {
      S.AllPresentSmaller(raw, present);
      if |present| == 1 {
        if present[0].NotAnObject? {
          return S.Unsupported(false);
        }
        S.PresentSmaller(raw, 0);
        S.InnerSize(raw, present[0]);
        d := DeriveNode(S.Inner(raw, present[0]), depth, where, false);
      } else {
        var all := DeriveBranches(raw, present, depth, where);
        narrowed := narrowed - {where};
        d := S.Combine(where, S.Results(Now(), all)).derived;
      }
    }
  }

  /** `deriveInputSchema` */
  method DeriveInputSchema(policy: S.Policy, raw: S.Raw) returns (d: S.Derived, withheld: map<string, string>)
    ensures S.DeriveInput(policy, raw).derived == d && S.DeriveInput(policy, raw).notes.withheld == withheld
    ensures d.Derived? ==> Faithful(policy, withheld.Keys, raw, d.schema, "") && Within(d.schema, S.LIMIT_DEPTH)
  {
    DerivedInputIsSafe(policy, raw);
    var walk := new Walk(policy);
    d := walk.DeriveNode(raw, 0, "", true);
    withheld := walk.withheld;
    if d.Derived? && !d.schema.Obj? {
      d := S.Unsupported(false);
    }
  }
}
