/** What a derived input schema says about its source, argument by argument, and the limits it keeps. */
module ConnectorTheorems {
  import opened Common
  import opened ConnectorSchema

  // ---- the relation between a source schema and a derived one ----

  /** Review does not deny the path, and no rule withholds the argument unless review allows the path. */
  ghost predicate Permitted(p: Policy, property: Property, required: bool, path: string) {
    && path !in p.deny
    && (Rule(p, property.key, property.child, required).Some? ==> path in p.allow)
  }

  /** Enum values come from the source, and from the reviewed values where review narrows them. */
  ghost predicate StringFits(p: Policy, raw: Raw, schema: Schema, where: string)
    requires raw.Raw?
  {
    schema.Str? && (schema.enums.Some? ==> Enum(raw).Some? && forall v :: v in schema.enums.value ==>
      && v in Enum(raw).value
      && (where in p.values && (forall i :: 0 <= i < |p.values[where]| ==> p.values[where][i] in Enum(raw).value) ==>
            v in p.values[where]))
  }

  ghost predicate InSource(properties: seq<Property>, name: string) {
    exists i :: 0 <= i < |properties| && properties[i].key == name
  }

  ghost predicate IsKept(arguments: seq<Argument>, name: string) {
    exists i :: 0 <= i < |arguments| && arguments[i].key == name
  }

  /** A required name is no kept argument exactly when it is undeclared by the source and every object answers to it. */
  ghost predicate NamesAccounted(properties: seq<Property>, required: seq<string>, arguments: seq<Argument>) {
    forall name :: name in required ==>
      (!IsKept(arguments, name) <==> !InSource(properties, name) && name in INHERITED)
  }

  /**
   * `schema` is a faithful reading of `raw` at path `where`, given the set of withheld paths: the same
   * structure; at every object the same required names, each accounted for; and each source argument is
   * either kept, being permitted and read faithfully itself, or recorded as withheld.
   */
  ghost predicate Faithful(p: Policy, withheld: set<string>, raw: Raw, schema: Schema, where: string)
    decreases Size(raw), Rank(raw), 1
  {
    raw.Raw? && !raw.upload &&
    if Variants(raw).Some? then
      var present := Present(Variants(raw).value);
      if |present| == 1 then
        present[0].Raw? &&
        (PresentSmaller(raw, 0); InnerSize(raw, present[0]);
         Faithful(p, withheld, Inner(raw, present[0]), schema, where))
      else
        AllPresentSmaller(raw, present);
        schema.Any? && schema.branches != [] && BranchesFaithful(p, withheld, raw, present, schema.branches, where)
    else
      match raw.kind
      case Single(TString) => StringFits(p, raw, schema, where)
      case Single(TInteger) => schema.Num?
      case Single(TNumber) => schema.Num?
      case Single(TBoolean) => schema.Bool?
      case Single(TArray) => schema.Arr? && Faithful(p, withheld, raw.items, schema.items, where + "[]")
      case Single(TObject) =>
        && schema.Obj? && schema.required == Dedup(raw.required)
        && NamesAccounted(raw.properties, raw.required, schema.properties)
        && ArgumentsFaithful(p, withheld, raw.properties, Dedup(raw.required), schema.properties, where)
      case _ => false
  }

  ghost predicate BranchesFaithful(
    p: Policy, withheld: set<string>, raw: Raw, branches: seq<Raw>, schemas: seq<Schema>, where: string)
    requires forall i :: 0 <= i < |branches| ==> Smaller(branches[i], raw)
    decreases Size(raw), Rank(raw), 0, |branches|
  {
    if branches == [] then schemas == []
    else
      assert Smaller(branches[0], raw);
      && schemas != [] && Primitive(branches[0])
      && Faithful(p, withheld, branches[0], schemas[0], where)
      && BranchesFaithful(p, withheld, raw, branches[1..], schemas[1..], where)
  }

  ghost predicate ArgumentsFaithful(
    p: Policy, withheld: set<string>, properties: seq<Property>, required: seq<string>, arguments: seq<Argument>,
    where: string)
    decreases SizeProps(properties), 2, |properties|
  {
    if properties == [] then arguments == []
    else
      var key, child := properties[0].key, properties[0].child;
      var path := Join(where, key);
      || (&& arguments != [] && arguments[0].key == key
          && Permitted(p, properties[0], key in required, path)
          && Faithful(p, withheld, child, arguments[0].schema, path)
          && ArgumentsFaithful(p, withheld, properties[1..], required, arguments[1..], where))
      || (&& path in withheld && key !in required
          && ArgumentsFaithful(p, withheld, properties[1..], required, arguments, where))
  }

  // ---- more withheld paths do no harm ----

  lemma {:induction false} FaithfulGrows(
    p: Policy, w: set<string>, w': set<string>, raw: Raw, schema: Schema, where: string)
    requires w <= w' && Faithful(p, w, raw, schema, where)
    ensures Faithful(p, w', raw, schema, where)
    decreases Size(raw), Rank(raw), 1
  {
    if Variants(raw).Some? {
      var present := Present(Variants(raw).value);
      AllPresentSmaller(raw, present);
      if |present| == 1 {
        PresentSmaller(raw, 0);
        InnerSize(raw, present[0]);
        FaithfulGrows(p, w, w', Inner(raw, present[0]), schema, where);
      } else {
        BranchesGrow(p, w, w', raw, present, schema.branches, where);
      }
    } else if raw.kind == Single(TArray) {
      FaithfulGrows(p, w, w', raw.items, schema.items, where + "[]");
    } else if raw.kind == Single(TObject) {
      ArgumentsGrow(p, w, w', raw.properties, Dedup(raw.required), schema.properties, where);
    }
  }

  lemma {:induction false} BranchesGrow(
    p: Policy, w: set<string>, w': set<string>, raw: Raw, branches: seq<Raw>, schemas: seq<Schema>, where: string)
    requires forall i :: 0 <= i < |branches| ==> Smaller(branches[i], raw)
    requires w <= w' && BranchesFaithful(p, w, raw, branches, schemas, where)
    ensures BranchesFaithful(p, w', raw, branches, schemas, where)
    decreases Size(raw), Rank(raw), 0, |branches|
  {
    if branches != [] {
      assert Smaller(branches[0], raw);
      FaithfulGrows(p, w, w', branches[0], schemas[0], where);
      BranchesGrow(p, w, w', raw, branches[1..], schemas[1..], where);
    }
  }

  lemma {:induction false} ArgumentsGrow(
    p: Policy, w: set<string>, w': set<string>, properties: seq<Property>, required: seq<string>,
    arguments: seq<Argument>, where: string)
    requires w <= w' && ArgumentsFaithful(p, w, properties, required, arguments, where)
    ensures ArgumentsFaithful(p, w', properties, required, arguments, where)
    decreases SizeProps(properties), 2, |properties|
  {
    if properties != [] {
      var key, child := properties[0].key, properties[0].child;
      var path := Join(where, key);
      if && arguments != [] && arguments[0].key == key
         && Permitted(p, properties[0], key in required, path)
         && Faithful(p, w, child, arguments[0].schema, path)
         && ArgumentsFaithful(p, w, properties[1..], required, arguments[1..], where) {
        FaithfulGrows(p, w, w', child, arguments[0].schema, path);
        ArgumentsGrow(p, w, w', properties[1..], required, arguments[1..], where);
      } else {
        ArgumentsGrow(p, w, w', properties[1..], required, arguments, where);
      }
    }
  }

  // ---- the walk is faithful ----

  lemma {:induction false} OnlyIsBoth(values: seq<string>, allowed: seq<string>)
    ensures forall v :: v in Only(values, allowed) <==> v in values && v in allowed
    ensures |Only(values, allowed)| <= |values|
  {
    if values != [] {
      OnlyIsBoth(values[1..], allowed);
      assert values == [values[0]] + values[1..];
    }
  }

  lemma StringIsFaithful(p: Policy, raw: Raw, where: string, notes: Notes)
    requires raw.Raw?
    ensures var r := DeriveString(p, raw, where, notes);
            r.notes.withheld == notes.withheld && (r.derived.Derived? ==> StringFits(p, raw, r.derived.schema, where))
  {
    if where in p.values && Enum(raw).Some? {
      OnlyIsBoth(Enum(raw).value, p.values[where]);
    }
  }

  lemma {:induction false} DeriveIsFaithful(p: Policy, raw: Raw, depth: nat, where: string, root: bool, notes: Notes)
    ensures var r := Derive(p, raw, depth, where, root, notes);
            && notes.withheld.Keys <= r.notes.withheld.Keys
            && (r.derived.Derived? ==> Faithful(p, r.notes.withheld.Keys, raw, r.derived.schema, where))
    decreases Size(raw), Rank(raw), 1
  {
    if depth <= LIMIT_DEPTH && raw.Raw? && !raw.upload {
      if Variants(raw).Some? {
        var present := Present(Variants(raw).value);
        AllPresentSmaller(raw, present);
        if |present| == 1 {
          if present[0].Raw? {
            PresentSmaller(raw, 0);
            InnerSize(raw, present[0]);
            DeriveIsFaithful(p, Inner(raw, present[0]), depth, where, false, notes);
          }
        } else {
          BranchesAreFaithful(p, raw, present, depth, where, notes);
          CombineKeeps(p, raw, present, where, DeriveBranches(p, raw, present, depth, where, notes));
        }
      } else {
        match raw.kind
        case Single(TString) => StringIsFaithful(p, raw, where, notes);
        case Single(TArray) => DeriveIsFaithful(p, raw.items, depth + 1, where + "[]", false, notes);
        case Single(TObject) =>
          ArgumentsAreFaithful(p, raw.properties, Dedup(raw.required), depth, where, notes, 0);
          var kept := DeriveArguments(p, raw.properties, Dedup(raw.required), depth, where, notes, 0);
          if kept.Kept? {
            ObjectNames(p, kept.notes.withheld.Keys, raw, root, kept, where);
          }
        case _ =>
      }
    }
  }

  lemma {:induction false} KeptIsInSource(
    p: Policy, w: set<string>, properties: seq<Property>, required: seq<string>, arguments: seq<Argument>,
    where: string, i: nat)
    requires ArgumentsFaithful(p, w, properties, required, arguments, where) && i < |arguments|
    ensures InSource(properties, arguments[i].key)
    decreases |properties|
  {
    var key, child := properties[0].key, properties[0].child;
    var path := Join(where, key);
    if && arguments[0].key == key
       && Permitted(p, properties[0], key in required, path)
       && Faithful(p, w, child, arguments[0].schema, path)
       && ArgumentsFaithful(p, w, properties[1..], required, arguments[1..], where) {
      if i > 0 {
        KeptIsInSource(p, w, properties[1..], required, arguments[1..], where, i - 1);
        var j :| 0 <= j < |properties[1..]| && properties[1..][j].key == arguments[1..][i - 1].key;
        assert properties[j + 1].key == arguments[i].key;
      }
    } else {
      KeptIsInSource(p, w, properties[1..], required, arguments, where, i);
      var j :| 0 <= j < |properties[1..]| && properties[1..][j].key == arguments[i].key;
      assert properties[j + 1].key == arguments[i].key;
    }
  }

  /** A required argument of the source is kept, and a kept one is the source's. */
  lemma RequiredIsKept(
    p: Policy, w: set<string>, properties: seq<Property>, required: seq<string>, arguments: seq<Argument>,
    where: string, name: string)
    requires ArgumentsFaithful(p, w, properties, required, arguments, where) && name in required
    ensures IsKept(arguments, name) <==> InSource(properties, name)
  {
    if InSource(properties, name) {
      var i :| 0 <= i < |properties| && properties[i].key == name;
      KeptOrWithheld(p, w, properties, required, arguments, where, i);
    }
    if i :| 0 <= i < |arguments| && arguments[i].key == name {
      KeptIsInSource(p, w, properties, required, arguments, where, i);
    }
  }

  /** An object is derived exactly when its arguments are, and each required name is the source's or every object's. */
  lemma ObjectNames(p: Policy, w: set<string>, raw: Raw, root: bool, kept: Kept, where: string)
    requires raw.Raw? && kept.Kept?
    requires ArgumentsFaithful(p, w, raw.properties, Dedup(raw.required), kept.arguments, where)
    ensures AsObject(raw, root, kept).derived.Derived? <==>
              && (root || kept.arguments != [])
              && forall name :: name in raw.required ==> InSource(raw.properties, name) || name in INHERITED
    ensures AsObject(raw, root, kept).derived.Derived? ==>
              NamesAccounted(raw.properties, raw.required, kept.arguments)
  {
    var required := Dedup(raw.required);
    DedupIs(raw.required);
    forall name | name in required
      ensures Declared(kept.arguments, name) <==> InSource(raw.properties, name) || name in INHERITED
    {
      RequiredIsKept(p, w, raw.properties, required, kept.arguments, where, name);
    }
    if AsObject(raw, root, kept).derived.Derived? {
      forall name | name in raw.required ensures InSource(raw.properties, name) || name in INHERITED {
        var i :| 0 <= i < |required| && required[i] == name;
        assert Declared(kept.arguments, required[i]);
      }
      forall name | name in raw.required
        ensures !IsKept(kept.arguments, name) <==> !InSource(raw.properties, name) && name in INHERITED
      {
        RequiredIsKept(p, w, raw.properties, required, kept.arguments, where, name);
      }
    } else if forall name :: name in raw.required ==> InSource(raw.properties, name) || name in INHERITED {
      forall i | 0 <= i < |required| ensures Declared(kept.arguments, required[i]) {
        assert required[i] in required;
      }
    }
  }

  /** The branches that were derived, when none failed. */
  function Schemas(all: seq<Derived>): seq<Schema>
    requires forall i :: 0 <= i < |all| ==> all[i].Derived?
  {
    seq(|all|, i requires 0 <= i < |all| => all[i].schema)
  }

  lemma CombineKeeps(p: Policy, raw: Raw, branches: seq<Raw>, where: string, results: Results)
    requires forall i :: 0 <= i < |branches| ==> Smaller(branches[i], raw)
    requires (forall i :: 0 <= i < |results.all| ==> results.all[i].Derived?) ==>
               BranchesFaithful(p, results.notes.withheld.Keys, raw, branches, Schemas(results.all), where)
    ensures var r := Combine(where, results);
            && r.notes.withheld == results.notes.withheld
            && (r.derived.Derived? ==>
                  && r.derived.schema.Any? && r.derived.schema.branches != []
                  && BranchesFaithful(p, results.notes.withheld.Keys, raw, branches, r.derived.schema.branches, where))
  {
    var r := Combine(where, results);
    if FirstFailed(results.all).None? {
      NoneFailed(results.all);
      if results.all != [] {
        assert r.derived.schema.branches == Schemas(results.all);
      }
    } else {
      FailedIsUnsupported(results.all);
    }
  }

  lemma {:induction false} FailedIsUnsupported(all: seq<Derived>)
    requires FirstFailed(all).Some?
    ensures FirstFailed(all).value.Unsupported?
  {
    if !all[0].Unsupported? {
      FailedIsUnsupported(all[1..]);
    }
  }

  lemma {:induction false} BranchesAreFaithful(
    p: Policy, raw: Raw, branches: seq<Raw>, depth: nat, where: string, notes: Notes)
    requires forall i :: 0 <= i < |branches| ==> Smaller(branches[i], raw)
    ensures var r := DeriveBranches(p, raw, branches, depth, where, notes);
            && notes.withheld.Keys <= r.notes.withheld.Keys
            && ((forall i :: 0 <= i < |r.all| ==> r.all[i].Derived?) ==>
                  BranchesFaithful(p, r.notes.withheld.Keys, raw, branches, Schemas(r.all), where))
    decreases Size(raw), Rank(raw), 0, |branches|
  {
    if branches != [] {
      assert Smaller(branches[0], raw);
      var r := DeriveBranches(p, raw, branches, depth, where, notes);
      var first := if Primitive(branches[0]) then Derive(p, branches[0], depth, where, false, notes)
                   else Result(notes, Unsupported(false));
      if Primitive(branches[0]) {
        DeriveIsFaithful(p, branches[0], depth, where, false, notes);
      }
      BranchesAreFaithful(p, raw, branches[1..], depth, where, first.notes);
      if forall i :: 0 <= i < |r.all| ==> r.all[i].Derived? {
        var rest := DeriveBranches(p, raw, branches[1..], depth, where, first.notes);
        assert r.all[0] == first.derived && r.all[1..] == rest.all;
        forall i | 0 <= i < |rest.all| ensures rest.all[i].Derived? {
          assert rest.all[i] == r.all[i + 1];
        }
        assert Schemas(r.all)[1..] == Schemas(rest.all);
        FaithfulGrows(p, first.notes.withheld.Keys, r.notes.withheld.Keys, branches[0], first.derived.schema, where);
      }
    }
  }

  lemma FateIsRight(p: Policy, property: Property, required: bool, path: string)
    ensures FateOf(p, property, required, path).Keep? ==> Permitted(p, property, required, path)
    ensures FateOf(p, property, required, path).Leave? ==> !required
  {
  }

  lemma {:induction false} ArgumentsAreFaithful(
    p: Policy, properties: seq<Property>, required: seq<string>, depth: nat, where: string, notes: Notes, count: nat)
    ensures var r := DeriveArguments(p, properties, required, depth, where, notes, count);
            && notes.withheld.Keys <= r.notes.withheld.Keys
            && (r.Kept? ==> ArgumentsFaithful(p, r.notes.withheld.Keys, properties, required, r.arguments, where))
    decreases SizeProps(properties), 2, |properties|, 1
  {
    if properties != [] {
      var key, child, more := properties[0].key, properties[0].child, properties[1..];
      var path := Join(where, key);
      FateIsRight(p, properties[0], key in required, path);
      match FateOf(p, properties[0], key in required, path)
      case GiveUp(_) =>
      case Leave(reason) =>
        ArgumentsAreFaithful(p, more, required, depth, where, notes.(withheld := notes.withheld[path := reason]),
          count);
      case Keep(rule) =>
        if GoodName(key) && count < LIMIT_PROPERTIES {
          DeriveIsFaithful(p, child, depth + 1, path, false, notes);
        }
        var fits := GoodName(key) && count < LIMIT_PROPERTIES;
        KeptAreFaithful(p, properties, required, depth, where, notes, count, rule,
                        if fits then Derive(p, child, depth + 1, path, false, notes)
                        else Result(notes, Unsupported(false)));
    }
  }

  /** The first argument is not withheld by a rule. */
  lemma {:induction false} KeptAreFaithful(
    p: Policy, properties: seq<Property>, required: seq<string>, depth: nat, where: string, notes: Notes, count: nat,
    rule: Option<string>, derived: Result)
    requires properties != []
    requires Permitted(p, properties[0], properties[0].key in required, Join(where, properties[0].key))
    requires FateOf(p, properties[0], properties[0].key in required, Join(where, properties[0].key)) == Keep(rule)
    requires var key, path := properties[0].key, Join(where, properties[0].key);
             derived == if GoodName(key) && count < LIMIT_PROPERTIES then
                          Derive(p, properties[0].child, depth + 1, path, false, notes)
                        else Result(notes, Unsupported(false))
    requires notes.withheld.Keys <= derived.notes.withheld.Keys
    requires derived.derived.Derived? ==>
               Faithful(p, derived.notes.withheld.Keys, properties[0].child, derived.derived.schema,
                        Join(where, properties[0].key))
    ensures var r := DeriveArguments(p, properties, required, depth, where, notes, count);
            && notes.withheld.Keys <= r.notes.withheld.Keys
            && (r.Kept? ==> ArgumentsFaithful(p, r.notes.withheld.Keys, properties, required, r.arguments, where))
    decreases SizeProps(properties), 2, |properties|, 0
  {
    var key, child, more := properties[0].key, properties[0].child, properties[1..];
    var path := Join(where, key);
    match derived.derived
    case Derived(schema) =>
      var noted := if rule.Some? then derived.notes.(allowedKept := derived.notes.allowedKept[path := rule.value])
                   else derived.notes;
      ArgumentsAreFaithful(p, more, required, depth, where, noted, count + 1);
      var rest := DeriveArguments(p, more, required, depth, where, noted, count + 1);
      if rest.Kept? {
        FaithfulGrows(p, noted.withheld.Keys, rest.notes.withheld.Keys, child, schema, path);
      }
    case Unsupported(excludesTool) =>
      if !excludesTool && key !in required {
        ArgumentsAreFaithful(p, more, required, depth, where,
          derived.notes.(withheld := derived.notes.withheld[path := "unsupported schema"]), count);
      }
  }

  // ---- argument paths ----

  /** The paths of all arguments of a schema that stands at `where`. */
  function Paths(schema: Schema, where: string): set<string>
    decreases schema, 0
  {
    match schema
    case Obj(properties, _) => ArgumentPaths(properties, where)
    case Arr(items, _, _) => Paths(items, where + "[]")
    case Any(branches) => BranchPaths(branches, where)
    case _ => {}
  }

  function ArgumentPaths(arguments: seq<Argument>, where: string): set<string>
    decreases arguments
  {
    if arguments == [] then {}
    else
      var path := Join(where, arguments[0].key);
      {path} + Paths(arguments[0].schema, path) + ArgumentPaths(arguments[1..], where)
  }

  function BranchPaths(branches: seq<Schema>, where: string): set<string>
    decreases branches
  {
    if branches == [] then {} else Paths(branches[0], where) + BranchPaths(branches[1..], where)
  }

  /** No path of a faithful schema is denied by review. */
  lemma {:induction false} FaithfulAvoidsDenied(p: Policy, w: set<string>, raw: Raw, schema: Schema, where: string)
    requires Faithful(p, w, raw, schema, where)
    ensures Paths(schema, where) !! p.deny.Keys
    decreases Size(raw), Rank(raw), 1
  {
    if Variants(raw).Some? {
      var present := Present(Variants(raw).value);
      AllPresentSmaller(raw, present);
      if |present| == 1 {
        PresentSmaller(raw, 0);
        InnerSize(raw, present[0]);
        FaithfulAvoidsDenied(p, w, Inner(raw, present[0]), schema, where);
      } else {
        BranchesAvoidDenied(p, w, raw, present, schema.branches, where);
      }
    } else if raw.kind == Single(TArray) {
      FaithfulAvoidsDenied(p, w, raw.items, schema.items, where + "[]");
    } else if raw.kind == Single(TObject) {
      ArgumentsAvoidDenied(p, w, raw.properties, Dedup(raw.required), schema.properties, where);
    }
  }

  lemma {:induction false} BranchesAvoidDenied(
    p: Policy, w: set<string>, raw: Raw, branches: seq<Raw>, schemas: seq<Schema>, where: string)
    requires forall i :: 0 <= i < |branches| ==> Smaller(branches[i], raw)
    requires BranchesFaithful(p, w, raw, branches, schemas, where)
    ensures BranchPaths(schemas, where) !! p.deny.Keys
    decreases Size(raw), Rank(raw), 0, |branches|
  {
    if branches != [] {
      assert Smaller(branches[0], raw);
      FaithfulAvoidsDenied(p, w, branches[0], schemas[0], where);
      BranchesAvoidDenied(p, w, raw, branches[1..], schemas[1..], where);
    }
  }

  lemma {:induction false} ArgumentsAvoidDenied(
    p: Policy, w: set<string>, properties: seq<Property>, required: seq<string>, arguments: seq<Argument>,
    where: string)
    requires ArgumentsFaithful(p, w, properties, required, arguments, where)
    ensures ArgumentPaths(arguments, where) !! p.deny.Keys
    decreases SizeProps(properties), 2, |properties|
  {
    if properties != [] {
      var key, child := properties[0].key, properties[0].child;
      var path := Join(where, key);
      if && arguments != [] && arguments[0].key == key
         && Permitted(p, properties[0], key in required, path)
         && Faithful(p, w, child, arguments[0].schema, path)
         && ArgumentsFaithful(p, w, properties[1..], required, arguments[1..], where) {
        FaithfulAvoidsDenied(p, w, child, arguments[0].schema, path);
        ArgumentsAvoidDenied(p, w, properties[1..], required, arguments[1..], where);
      } else {
        ArgumentsAvoidDenied(p, w, properties[1..], required, arguments, where);
      }
    }
  }

  /**
   * Every source argument of a kept object is kept under its name or recorded as withheld, and required ones
   * are kept.
   */
  lemma {:induction false} KeptOrWithheld(
    p: Policy, w: set<string>, properties: seq<Property>, required: seq<string>, arguments: seq<Argument>,
    where: string, i: nat)
    requires ArgumentsFaithful(p, w, properties, required, arguments, where) && i < |properties|
    ensures (exists j :: 0 <= j < |arguments| && arguments[j].key == properties[i].key
                         && Permitted(p, properties[i], properties[i].key in required, Join(where, properties[i].key))
                         && Faithful(p, w, properties[i].child, arguments[j].schema, Join(where, properties[i].key)))
            || (Join(where, properties[i].key) in w && properties[i].key !in required)
    decreases |properties|
  {
    var key := properties[0].key;
    var path := Join(where, key);
    var kept := && arguments != [] && arguments[0].key == key
                && Permitted(p, properties[0], key in required, path)
                && Faithful(p, w, properties[0].child, arguments[0].schema, path)
                && ArgumentsFaithful(p, w, properties[1..], required, arguments[1..], where);
    if i > 0 {
      assert properties[1..][i - 1] == properties[i];
      var more := if kept then arguments[1..] else arguments;
      KeptOrWithheld(p, w, properties[1..], required, more, where, i - 1);
      if j :| 0 <= j < |more| && more[j].key == properties[i].key
              && Permitted(p, properties[i], properties[i].key in required, Join(where, properties[i].key))
              && Faithful(p, w, properties[i].child, more[j].schema, Join(where, properties[i].key)) {
        assert arguments[if kept then j + 1 else j] == more[j];
      }
    }
  }

  // ---- the limits ----

  ghost predicate Within(schema: Schema, room: int)
    decreases schema
  {
    match schema
    case Str(maxLength, minLength, enums) =>
      && maxLength <= LIMIT_STRING && (minLength.Some? ==> minLength.value <= maxLength)
      && (enums.Some? ==> |enums.value| <= LIMIT_ENUM && forall i :: 0 <= i < |enums.value| ==>
           |enums.value[i]| <= LIMIT_TEXT)
    case Num => true
    case Bool => true
    case Arr(items, maxItems, minItems) =>
      maxItems <= LIMIT_ITEMS && (minItems.Some? ==> minItems.value <= maxItems) && room > 0 && Within(items, room - 1)
    case Obj(properties, required) =>
      && |properties| <= LIMIT_PROPERTIES
      && (forall i :: 0 <= i < |properties| ==>
            GoodName(properties[i].key) && room > 0 && Within(properties[i].schema, room - 1))
      && (forall i :: 0 <= i < |required| ==> Declared(properties, required[i]))
    case Any(branches) => forall i :: 0 <= i < |branches| ==> Within(branches[i], room)
  }

  lemma {:induction false} OnlyShort(values: seq<string>, allowed: seq<string>)
    requires forall i :: 0 <= i < |values| ==> |values[i]| <= LIMIT_TEXT
    ensures |Only(values, allowed)| <= |values|
    ensures forall i :: 0 <= i < |Only(values, allowed)| ==> |Only(values, allowed)[i]| <= LIMIT_TEXT
  {
    if values != [] {
      OnlyShort(values[1..], allowed);
    }
  }

  lemma StringIsWithin(p: Policy, raw: Raw, where: string, notes: Notes, room: int)
    requires raw.Raw?
    ensures var r := DeriveString(p, raw, where, notes); r.derived.Derived? ==> Within(r.derived.schema, room)
  {
    if Enum(raw).Some? {
      var values := Enum(raw).value;
      forall i | 0 <= i < |values| ensures |values[i]| <= LIMIT_TEXT {
        assert ShortText(raw.enums.value[i]);
      }
      if where in p.values {
        OnlyShort(values, p.values[where]);
      }
    }
  }

  lemma {:induction false} DeriveIsWithin(p: Policy, raw: Raw, depth: nat, where: string, root: bool, notes: Notes)
    ensures var r := Derive(p, raw, depth, where, root, notes);
            r.derived.Derived? ==> depth <= LIMIT_DEPTH && Within(r.derived.schema, LIMIT_DEPTH - depth)
    decreases Size(raw), Rank(raw), 1
  {
    if depth <= LIMIT_DEPTH && raw.Raw? && !raw.upload {
      if Variants(raw).Some? {
        VariantsAreWithin(p, raw, Present(Variants(raw).value), depth, where, root, notes);
      } else {
        match raw.kind
        case Single(TString) => StringIsWithin(p, raw, where, notes, LIMIT_DEPTH - depth);
        case Single(TArray) =>
          DeriveIsWithin(p, raw.items, depth + 1, where + "[]", false, notes);
          ArrayIsWithin(raw, Derive(p, raw.items, depth + 1, where + "[]", false, notes), LIMIT_DEPTH - depth);
        case Single(TObject) =>
          ArgumentsAreWithin(p, raw.properties, Dedup(raw.required), depth, where, notes, 0);
          ArgumentsCount(p, raw.properties, Dedup(raw.required), depth, where, notes, 0);
          var kept := DeriveArguments(p, raw.properties, Dedup(raw.required), depth, where, notes, 0);
          ObjectIsWithin(raw, root, kept, LIMIT_DEPTH - depth);
        case _ =>
      }
    }
  }

  lemma {:induction false} VariantsAreWithin(
    p: Policy, raw: Raw, present: seq<Raw>, depth: nat, where: string, root: bool, notes: Notes)
    requires depth <= LIMIT_DEPTH && raw.Raw? && !raw.upload && Variants(raw).Some?
             && present == Present(Variants(raw).value)
    ensures var r := Derive(p, raw, depth, where, root, notes); r.derived.Derived? ==>
            Within(r.derived.schema, LIMIT_DEPTH - depth)
    decreases Size(raw), Rank(raw), 0, |present| + 1
  {
    AllPresentSmaller(raw, present);
    if |present| == 1 {
      if present[0].Raw? {
        PresentSmaller(raw, 0);
        InnerSize(raw, present[0]);
        DeriveIsWithin(p, Inner(raw, present[0]), depth, where, false, notes);
      }
    } else {
      BranchesAreWithin(p, raw, present, depth, where, notes);
      CombineIsWithin(where, DeriveBranches(p, raw, present, depth, where, notes), LIMIT_DEPTH - depth);
    }
  }

  lemma ArrayIsWithin(raw: Raw, items: Result, room: int)
    requires raw.Raw? && (items.derived.Derived? ==> room > 0 && Within(items.derived.schema, room - 1))
    ensures var r := InArray(raw, items); r.derived.Derived? ==> Within(r.derived.schema, room)
  {
  }

  lemma ObjectIsWithin(raw: Raw, root: bool, kept: Kept, room: int)
    requires raw.Raw? && (kept.Kept? ==> |kept.arguments| <= LIMIT_PROPERTIES && ArgumentsWithin(kept.arguments, room))
    ensures var r := AsObject(raw, root, kept); r.derived.Derived? ==> Within(r.derived.schema, room)
  {
  }

  ghost predicate ResultsWithin(all: seq<Derived>, room: int) {
    forall i :: 0 <= i < |all| && all[i].Derived? ==> Within(all[i].schema, room)
  }

  lemma ResultsCons(first: Derived, all: seq<Derived>, room: int)
    requires ResultsWithin(all, room) && (first.Derived? ==> Within(first.schema, room))
    ensures ResultsWithin([first] + all, room)
  {
  }

  lemma CombineIsWithin(where: string, results: Results, room: int)
    requires ResultsWithin(results.all, room)
    ensures var r := Combine(where, results); r.derived.Derived? ==> Within(r.derived.schema, room)
  {
    if FirstFailed(results.all).None? {
      NoneFailed(results.all);
    } else {
      FailedIsUnsupported(results.all);
    }
  }

  lemma {:induction false} BranchesAreWithin(
    p: Policy, raw: Raw, branches: seq<Raw>, depth: nat, where: string, notes: Notes)
    requires forall i :: 0 <= i < |branches| ==> Smaller(branches[i], raw)
    ensures var r := DeriveBranches(p, raw, branches, depth, where, notes);
            ResultsWithin(r.all, LIMIT_DEPTH - depth)
    decreases Size(raw), Rank(raw), 0, |branches|
  {
    if branches != [] {
      assert Smaller(branches[0], raw);
      var first := if Primitive(branches[0]) then Derive(p, branches[0], depth, where, false, notes)
                   else Result(notes, Unsupported(false));
      if Primitive(branches[0]) {
        DeriveIsWithin(p, branches[0], depth, where, false, notes);
      }
      BranchesAreWithin(p, raw, branches[1..], depth, where, first.notes);
      ResultsCons(first.derived, DeriveBranches(p, raw, branches[1..], depth, where, first.notes).all,
        LIMIT_DEPTH - depth);
    }
  }

  ghost predicate ArgumentsWithin(arguments: seq<Argument>, room: int) {
    forall i :: 0 <= i < |arguments| ==> GoodName(arguments[i].key) && room > 0 && Within(arguments[i].schema, room - 1)
  }

  /** At most 100 arguments are kept. */
  lemma {:induction false} ArgumentsCount(
    p: Policy, properties: seq<Property>, required: seq<string>, depth: nat, where: string, notes: Notes, count: nat)
    requires count <= LIMIT_PROPERTIES
    ensures var r := DeriveArguments(p, properties, required, depth, where, notes, count);
            r.Kept? ==> |r.arguments| + count <= LIMIT_PROPERTIES
    decreases |properties|
  {
    if properties != [] {
      var key, child, more := properties[0].key, properties[0].child, properties[1..];
      var path := Join(where, key);
      match FateOf(p, properties[0], key in required, path)
      case GiveUp(_) =>
      case Leave(reason) =>
        ArgumentsCount(p, more, required, depth, where, notes.(withheld := notes.withheld[path := reason]), count);
      case Keep(rule) =>
        var derived := if GoodName(key) && count < LIMIT_PROPERTIES then Derive(p, child, depth + 1, path, false, notes)
                       else Result(notes, Unsupported(false));
        match derived.derived
        case Derived(schema) =>
          var noted := if rule.Some? then derived.notes.(allowedKept := derived.notes.allowedKept[path := rule.value])
                       else derived.notes;
          ArgumentsCount(p, more, required, depth, where, noted, count + 1);
        case Unsupported(excludesTool) =>
          if !excludesTool && key !in required {
            ArgumentsCount(p, more, required, depth, where,
              derived.notes.(withheld := derived.notes.withheld[path := "unsupported schema"]), count);
          }
    }
  }

  lemma PrependIsWithin(argument: Argument, kept: Kept, room: int)
    requires GoodName(argument.key) && room > 0 && Within(argument.schema, room - 1)
    requires kept.Kept? ==> ArgumentsWithin(kept.arguments, room)
    ensures var r := Prepend(argument, kept); r.Kept? ==> ArgumentsWithin(r.arguments, room)
  {
  }

  lemma {:induction false} ArgumentsAreWithin(
    p: Policy, properties: seq<Property>, required: seq<string>, depth: nat, where: string, notes: Notes, count: nat)
    requires depth <= LIMIT_DEPTH
    ensures var r := DeriveArguments(p, properties, required, depth, where, notes, count);
            r.Kept? ==> ArgumentsWithin(r.arguments, LIMIT_DEPTH - depth)
    decreases SizeProps(properties), 2, |properties|, 1
  {
    if properties != [] {
      var key, child, more := properties[0].key, properties[0].child, properties[1..];
      var path := Join(where, key);
      match FateOf(p, properties[0], key in required, path)
      case GiveUp(_) =>
      case Leave(reason) =>
        ArgumentsAreWithin(p, more, required, depth, where, notes.(withheld := notes.withheld[path := reason]), count);
      case Keep(rule) =>
        if GoodName(key) && count < LIMIT_PROPERTIES {
          DeriveIsWithin(p, child, depth + 1, path, false, notes);
        }
        var fits := GoodName(key) && count < LIMIT_PROPERTIES;
        KeptAreWithin(p, properties, required, depth, where, notes, count, rule,
                      if fits then Derive(p, child, depth + 1, path, false, notes)
                      else Result(notes, Unsupported(false)));
    }
  }

  lemma {:induction false} KeptAreWithin(
    p: Policy, properties: seq<Property>, required: seq<string>, depth: nat, where: string, notes: Notes, count: nat,
    rule: Option<string>, derived: Result)
    requires depth <= LIMIT_DEPTH && properties != []
    requires FateOf(p, properties[0], properties[0].key in required, Join(where, properties[0].key)) == Keep(rule)
    requires var key, path := properties[0].key, Join(where, properties[0].key);
             derived == if GoodName(key) && count < LIMIT_PROPERTIES then
                          Derive(p, properties[0].child, depth + 1, path, false, notes)
                        else Result(notes, Unsupported(false))
    requires derived.derived.Derived? ==>
               depth + 1 <= LIMIT_DEPTH && GoodName(properties[0].key)
               && Within(derived.derived.schema, LIMIT_DEPTH - (depth + 1))
    ensures var r := DeriveArguments(p, properties, required, depth, where, notes, count);
            r.Kept? ==> ArgumentsWithin(r.arguments, LIMIT_DEPTH - depth)
    decreases SizeProps(properties), 2, |properties|, 0
  {
    var key, more := properties[0].key, properties[1..];
    var path := Join(where, key);
    match derived.derived
    case Derived(schema) =>
      var noted := if rule.Some? then derived.notes.(allowedKept := derived.notes.allowedKept[path := rule.value])
                   else derived.notes;
      ArgumentsAreWithin(p, more, required, depth, where, noted, count + 1);
      PrependIsWithin(Argument(key, schema), DeriveArguments(p, more, required, depth, where, noted, count + 1),
        LIMIT_DEPTH - depth);
    case Unsupported(excludesTool) =>
      if !excludesTool && key !in required {
        ArgumentsAreWithin(p, more, required, depth, where,
          derived.notes.(withheld := derived.notes.withheld[path := "unsupported schema"]), count);
      }
  }

  // ---- the theorem ----

  /**
   * A derived input schema is an object that reads its source faithfully: it holds no argument that
   * review denies, none that a rule withholds unless review allows it, every source argument of a kept
   * object is kept or recorded as withheld, required names are the source's, and all limits hold.
   */
  lemma DerivedInputIsSafe(p: Policy, raw: Raw)
    ensures var r := DeriveInput(p, raw);
            r.derived.Derived? ==>
              && r.derived.schema.Obj?
              && Faithful(p, r.notes.withheld.Keys, raw, r.derived.schema, "")
              && Paths(r.derived.schema, "") !! p.deny.Keys
              && Within(r.derived.schema, LIMIT_DEPTH)
  {
    DeriveIsFaithful(p, raw, 0, "", true, NOTHING);
    DeriveIsWithin(p, raw, 0, "", true, NOTHING);
    var r := DeriveInput(p, raw);
    if r.derived.Derived? {
      FaithfulAvoidsDenied(p, r.notes.withheld.Keys, raw, r.derived.schema, "");
    }
  }

  /** An object schema with no arguments that requires one name. */
  function Requiring(name: string): Raw {
    Raw(false, "", None, false, [], Single(TObject), None, None, None, NotAnObject, None, None, [], [name])
  }

  /**
   * At any object node that is reached, derivation succeeds exactly when its arguments are derived, it is
   * not an empty nested object, and each required name is declared by the source or one that every object
   * answers to; then a required name is no kept argument exactly when it is undeclared and of that kind.
   */
  lemma UndeclaredNames(p: Policy, raw: Raw, depth: nat, where: string, root: bool, notes: Notes)
    requires depth <= LIMIT_DEPTH && raw.Raw? && !raw.upload && Variants(raw).None? && raw.kind == Single(TObject)
    ensures var kept := DeriveArguments(p, raw.properties, Dedup(raw.required), depth, where, notes, 0);
            var derived := Derive(p, raw, depth, where, root, notes).derived;
            && (derived.Derived? <==>
                  && kept.Kept? && (root || kept.arguments != [])
                  && forall name :: name in raw.required ==> InSource(raw.properties, name) || name in INHERITED)
            && (derived.Derived? ==>
                  derived.schema.Obj? && NamesAccounted(raw.properties, raw.required, derived.schema.properties))
  {
    var kept := DeriveArguments(p, raw.properties, Dedup(raw.required), depth, where, notes, 0);
    ArgumentsAreFaithful(p, raw.properties, Dedup(raw.required), depth, where, notes, 0);
    if kept.Kept? {
      ObjectNames(p, kept.notes.withheld.Keys, raw, root, kept, where);
    }
  }

  /** The smallest case: a root object that requires one undeclared name. */
  lemma InheritedName(p: Policy, name: string)
    ensures DeriveInput(p, Requiring(name)).derived.Derived? <==> name in INHERITED
  {
    UndeclaredNames(p, Requiring(name), 0, "", true, NOTHING);
    assert Requiring(name).properties == [];
    assert name in Requiring(name).required;
  }
}
