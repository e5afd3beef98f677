/**
 * Deriving a connector tool's input schema (scripts/lib/composio-manifests.ts:400-580). The word-list
 * rules are parameters of the policy; everything the walk does with their answers is modelled.
 */
module ConnectorSchema {
  import opened Common

  // ---- what a snapshot holds ----

  datatype Tag = TString | TInteger | TNumber | TBoolean | TArray | TObject | TNull | TOther

  /** The `type` of a schema: one name, a list of names, or none. */
  datatype Kind = Single(tag: Tag) | List(tags: seq<Tag>) | Untyped

  datatype Value = Text(text: string) | True | Null | OtherValue

  /**
   * A schema as the provider wrote it, or something that is not an object at all; `union` says that `anyOf`
   * is a list.
   */
  datatype Raw =
    | NotAnObject
    | Raw(upload: bool, description: string, default: Option<Value>, union: bool, anyOf: seq<Raw>, kind: Kind,
          maxLength: Option<int>, minLength: Option<int>, enums: Option<seq<Value>>,
          items: Raw, maxItems: Option<int>, minItems: Option<int>,
          properties: seq<Property>, required: seq<string>)

  datatype Property = Property(key: string, child: Raw)

  function Size(raw: Raw): (n: nat)
    ensures n > 0
  {
    if raw.NotAnObject? then 1
    else 1 + SizeAll(raw.anyOf) + Size(raw.items) + SizeProps(raw.properties)
  }

  function SizeAll(raws: seq<Raw>): nat {
    if raws == [] then 0 else Size(raws[0]) + SizeAll(raws[1..])
  }

  function SizeProps(properties: seq<Property>): nat {
    if properties == [] then 0 else Size(properties[0].child) + SizeProps(properties[1..])
  }

  // ---- what a manifest holds ----

  datatype Schema =
    | Str(maxLength: nat, minLength: Option<nat>, enums: Option<seq<string>>)
    | Num
    | Bool
    | Arr(items: Schema, maxItems: nat, minItems: Option<nat>)
    | Obj(properties: seq<Argument>, required: seq<string>)
    | Any(branches: seq<Schema>)

  datatype Argument = Argument(key: string, schema: Schema)

  // ---- the policy of a review ----

  datatype Policy = Policy(
    write: bool,
    allow: set<string>,
    deny: map<string, string>,
    values: map<string, seq<string>>,
    anyTool: (string, Raw) -> Option<string>,
    writeRule: (string, Raw, bool) -> Option<string>,
    mintsLinkByDefault: Raw -> bool,
    overwritesByDefault: Raw -> bool)

  const WITHHELD_LINK := "can make the provider mint a link anyone holding it can open"
  const WITHHELD_OVERWRITE := "can replace an existing item"

  /** The rule that withholds an argument, if any. */
  function Rule(p: Policy, key: string, child: Raw, required: bool): Option<string> {
    var any := p.anyTool(key, child);
    if any.Some? then any
    else if p.write then p.writeRule(key, child, required)
    else None
  }

  function Join(where: string, key: string): string {
    if where == "" then key else where + "." + key
  }

  // ---- the walk ----

  /** What the walk writes down on its way. */
  datatype Notes = Notes(withheld: map<string, string>, allowedKept: map<string, string>, narrowed: set<string>)

  datatype Derived = Unsupported(excludesTool: bool) | Derived(schema: Schema)

  datatype Result = Result(notes: Notes, derived: Derived)

  datatype Results = Results(notes: Notes, all: seq<Derived>)

  /** The arguments of one object: kept ones, or the reason to give the object up. */
  datatype Kept = GivenUp(notes: Notes, excludesTool: bool) | Kept(notes: Notes, arguments: seq<Argument>)

  const LIMIT_DEPTH := 4
  const LIMIT_STRING := 20_000
  const LIMIT_ITEMS := 100
  const LIMIT_PROPERTIES := 100
  const LIMIT_ENUM := 200
  const LIMIT_TEXT := 200

  function Variants(raw: Raw): Option<seq<Raw>>
    requires raw.Raw?
  {
    if raw.union then Some(raw.anyOf)
    else if raw.kind.List? then
        Some(seq(|raw.kind.tags|, i requires 0 <= i < |raw.kind.tags| => raw.(kind := Single(raw.kind.tags[i]))))
    else None
  }

  predicate IsNull(raw: Raw) {
    raw.Raw? && raw.kind == Single(TNull)
  }

  function Present(variants: seq<Raw>): seq<Raw> {
    if variants == [] then []
    else if IsNull(variants[0]) then Present(variants[1..])
    else [variants[0]] + Present(variants[1..])
  }

  predicate Primitive(raw: Raw) {
    raw.Raw? && raw.kind.Single? && raw.kind.tag in {TString, TInteger, TNumber, TBoolean}
  }

  /** The only variant of an optional argument, with the default of the whole. */
  function Inner(raw: Raw, variant: Raw): Raw
    requires raw.Raw? && variant.Raw?
  {
    variant.(default := if variant.default.Some? then variant.default else raw.default)
  }

  /** How far a schema is from having one type. */
  function Rank(raw: Raw): nat {
    if raw.Raw? && !raw.union && raw.kind.List? then 1 else 0
  }

  predicate Smaller(v: Raw, raw: Raw) {
    Size(v) < Size(raw) || (Size(v) == Size(raw) && Rank(v) < Rank(raw))
  }

  lemma {:induction false} PresentSizes(variants: seq<Raw>, i: nat)
    requires i < |Present(variants)|
    ensures exists j :: 0 <= j < |variants| && Present(variants)[i] == variants[j]
    decreases |variants|
  {
    if IsNull(variants[0]) {
      PresentSizes(variants[1..], i);
      var j :| 0 <= j < |variants[1..]| && Present(variants[1..])[i] == variants[1..][j];
      assert variants[j + 1] == Present(variants)[i];
    } else if i > 0 {
      PresentSizes(variants[1..], i - 1);
      var j :| 0 <= j < |variants[1..]| && Present(variants[1..])[i - 1] == variants[1..][j];
      assert variants[j + 1] == Present(variants)[i];
    }
  }

  lemma {:induction false} SizeAllBounds(raws: seq<Raw>, i: nat)
    requires i < |raws|
    ensures Size(raws[i]) <= SizeAll(raws)
  {
    if i > 0 {
      SizeAllBounds(raws[1..], i - 1);
    }
  }

  /** Every present variant is smaller than the schema, or is the schema with one of its types. */
  lemma PresentSmaller(raw: Raw, i: nat)
    requires raw.Raw? && Variants(raw).Some? && i < |Present(Variants(raw).value)|
    ensures var v := Present(Variants(raw).value)[i];
            Smaller(v, raw)
  {
    var variants := Variants(raw).value;
    PresentSizes(variants, i);
    var j :| 0 <= j < |variants| && Present(variants)[i] == variants[j];
    if raw.union {
      SizeAllBounds(raw.anyOf, j);
    }
  }

  lemma AllPresentSmaller(raw: Raw, present: seq<Raw>)
    requires raw.Raw? && Variants(raw).Some? && present == Present(Variants(raw).value)
    ensures forall i :: 0 <= i < |present| ==> Smaller(present[i], raw)
  {
    forall i | 0 <= i < |present| ensures Smaller(present[i], raw) {
      PresentSmaller(raw, i);
    }
  }

  lemma InnerSize(raw: Raw, variant: Raw)
    requires raw.Raw? && variant.Raw?
    ensures Size(Inner(raw, variant)) == Size(variant) && Rank(Inner(raw, variant)) == Rank(variant)
  {
  }

  function Positive(n: Option<int>): Option<nat> {
    if n.Some? && n.value > 0 then Some(n.value) else None
  }

  function AtMost(n: Option<int>, limit: nat): nat {
    var m := Positive(n).UnwrapOr(limit);
    if m < limit then m else limit
  }

  function AtLeast(n: Option<int>, limit: nat): Option<nat> {
    var m := Positive(n);
    if m.Some? && m.value <= limit then m else None
  }

  predicate ShortText(v: Value) {
    v.Text? && |v.text| <= LIMIT_TEXT
  }

  function Enum(raw: Raw): Option<seq<string>>
    requires raw.Raw?
  {
    match raw.enums
    case None => None
    case Some(values) =>
      if 0 < |values| <= LIMIT_ENUM && forall i :: 0 <= i < |values| ==> ShortText(values[i])
      then Some(seq(|values|, i requires 0 <= i < |values| => assert ShortText(values[i]); values[i].text)) else None
  }

  function Defaults(raw: Raw): seq<Value>
    decreases Size(raw), 0
  {
    if raw.NotAnObject? then []
    else (if raw.default.Some? then [raw.default.value] else []) + (if raw.union then DefaultsAll(raw.anyOf) else [])
  }

  function DefaultsAll(raws: seq<Raw>): seq<Value>
    decreases SizeAll(raws), 1
  {
    if raws == [] then [] else Defaults(raws[0]) + DefaultsAll(raws[1..])
  }

  function Only(values: seq<string>, allowed: seq<string>): seq<string> {
    if values == [] then []
    else if values[0] in allowed then [values[0]] + Only(values[1..], allowed)
    else Only(values[1..], allowed)
  }

  predicate DropsDefault(raw: Raw, allowed: seq<string>) {
    exists v :: v in Defaults(raw) && v != Null && !(v.Text? && v.text in allowed)
  }

  function DeriveString(p: Policy, raw: Raw, where: string, notes: Notes): Result
    requires raw.Raw?
  {
    var maxLength := AtMost(raw.maxLength, LIMIT_STRING);
    var minLength := AtLeast(raw.minLength, maxLength);
    var values := Enum(raw);
    if where !in p.values then Result(notes, Derived(Str(maxLength, minLength, values)))
    else
      var allowed := p.values[where];
      if DropsDefault(raw, allowed) then Result(notes, Unsupported(true))
      else if values.Some? && forall i :: 0 <= i < |allowed| ==> allowed[i] in values.value then
        Result(notes.(narrowed := notes.narrowed + {where}),
               Derived(Str(maxLength, minLength, Some(Only(values.value, allowed)))))
      else Result(notes, Derived(Str(maxLength, minLength, values)))
  }

  function Dedup(s: seq<string>): seq<string>
    decreases |s|
  {
    if s == [] then []
    else
      var init := Dedup(s[..|s| - 1]);
      if s[|s| - 1] in init then init else init + [s[|s| - 1]]
  }

  lemma {:induction false} DedupIs(s: seq<string>)
    ensures Distinct(Dedup(s)) && forall y :: y in Dedup(s) <==> y in s
    decreases |s|
  {
    if s != [] {
      DedupIs(s[..|s| - 1]);
      assert s == s[..|s| - 1] + [s[|s| - 1]];
    }
  }

  predicate LetterOrUnderscore(c: char) {
    'A' <= c <= 'Z' || 'a' <= c <= 'z' || c == '_'
  }

  predicate GoodName(key: string) {
    && 0 < |key| <= 128 && LetterOrUnderscore(key[0])
    && forall i :: 0 <= i < |key| ==>
         LetterOrUnderscore(key[i]) || '0' <= key[i] <= '9' || key[i] == '.' || key[i] == '-'
  }

  /** Names that every object answers to (`key in properties`). */
  const INHERITED := {
    "constructor", "__defineGetter__", "__defineSetter__", "hasOwnProperty", "__lookupGetter__", "__lookupSetter__",
    "isPrototypeOf", "propertyIsEnumerable", "toString", "valueOf", "__proto__", "toLocaleString" }

  predicate Declared(arguments: seq<Argument>, key: string) {
    key in INHERITED || exists i :: 0 <= i < |arguments| && arguments[i].key == key
  }

  /** What happens to an argument that a rule or the review withholds. */
  datatype Fate = GiveUp(excludesTool: bool) | Leave(reason: string) | Keep(rule: Option<string>)

  function FateOf(p: Policy, property: Property, required: bool, path: string): Fate {
    var reviewed := path in p.deny;
    var withheld := if reviewed then Some("reviewer: " + p.deny[path])
        else Rule(p, property.key, property.child, required);
    if withheld.None? || (!reviewed && path in p.allow) then Keep(withheld)
    else if reviewed && required then GiveUp(false)
    else if withheld.value == WITHHELD_LINK && p.mintsLinkByDefault(property.child) then GiveUp(true)
    else if required then GiveUp(false)
    else if withheld.value == WITHHELD_OVERWRITE && p.overwritesByDefault(property.child) then GiveUp(false)
    else Leave(withheld.value)
  }

  function Derive(p: Policy, raw: Raw, depth: nat, where: string, root: bool, notes: Notes): Result
    decreases Size(raw), Rank(raw), 1
  {
    if depth > LIMIT_DEPTH || raw.NotAnObject? || raw.upload then Result(notes, Unsupported(false))
    else if Variants(raw).Some? then
      var present := Present(Variants(raw).value);
      if |present| == 1 then
        if present[0].NotAnObject? then Result(notes, Unsupported(false))
        else
          PresentSmaller(raw, 0);
          InnerSize(raw, present[0]);
          Derive(p, Inner(raw, present[0]), depth, where, false, notes)
      else
        AllPresentSmaller(raw, present);
        Combine(where, DeriveBranches(p, raw, present, depth, where, notes))
    else
      match raw.kind
      case Single(TString) => DeriveString(p, raw, where, notes)
      case Single(TInteger) => Result(notes, Derived(Num))
      case Single(TNumber) => Result(notes, Derived(Num))
      case Single(TBoolean) => Result(notes, Derived(Bool))
      case Single(TArray) => InArray(raw, Derive(p, raw.items, depth + 1, where + "[]", false, notes))
      case Single(TObject) =>
        if raw.properties == [] && !root then Result(notes, Unsupported(false))
        else AsObject(raw, root, DeriveArguments(p, raw.properties, Dedup(raw.required), depth, where, notes, 0))
      case _ => Result(notes, Unsupported(false))
  }

  function InArray(raw: Raw, items: Result): Result
    requires raw.Raw?
  {
    if items.derived.Unsupported? then items
    else
      var maxItems := AtMost(raw.maxItems, LIMIT_ITEMS);
      items.(derived := Derived(Arr(items.derived.schema, maxItems, AtLeast(raw.minItems, maxItems))))
  }

  function AsObject(raw: Raw, root: bool, kept: Kept): Result
    requires raw.Raw?
  {
    if kept.GivenUp? then Result(kept.notes, Unsupported(kept.excludesTool))
    else if !root && kept.arguments == [] then Result(kept.notes, Unsupported(false))
    else
      var required := Dedup(raw.required);
      if exists i :: 0 <= i < |required| && !Declared(kept.arguments, required[i]) then
        Result(kept.notes, Unsupported(false))
      else Result(kept.notes, Derived(Obj(kept.arguments, required)))
  }

  /** All branches are derived, in order; one that is not primitive fails. */
  function DeriveBranches(
    p: Policy, raw: Raw, branches: seq<Raw>, depth: nat, where: string, notes: Notes): (r: Results)
    requires forall i :: 0 <= i < |branches| ==> Smaller(branches[i], raw)
    ensures |r.all| == |branches|
    decreases Size(raw), Rank(raw), 0, |branches|
  {
    if branches == [] then Results(notes, [])
    else
      assert Smaller(branches[0], raw);
      var first := if Primitive(branches[0]) then Derive(p, branches[0], depth, where, false, notes)
                   else Result(notes, Unsupported(false));
      var rest := DeriveBranches(p, raw, branches[1..], depth, where, first.notes);
      Results(rest.notes, [first.derived] + rest.all)
  }

  function FirstFailed(all: seq<Derived>): Option<Derived> {
    if all == [] then None else if all[0].Unsupported? then Some(all[0]) else FirstFailed(all[1..])
  }

  lemma {:induction false} NoneFailed(all: seq<Derived>)
    requires FirstFailed(all).None?
    ensures forall i :: 0 <= i < |all| ==> all[i].Derived?
  {
    if all != [] {
      NoneFailed(all[1..]);
    }
  }

  function Combine(where: string, branches: Results): Result {
    var notes := branches.notes.(narrowed := branches.notes.narrowed - {where});
    var failed := FirstFailed(branches.all);
    if failed.Some? then Result(notes, failed.value)
    else if branches.all == [] then Result(notes, Unsupported(false))
    else
      NoneFailed(branches.all);
      Result(notes, Derived(Any(seq(|branches.all|, i requires 0 <= i < |branches.all| => branches.all[i].schema))))
  }

  /** The loop over the properties of an object; `count` arguments are already kept. */
  function DeriveArguments(
    p: Policy, properties: seq<Property>, required: seq<string>, depth: nat, where: string, notes: Notes,
    count: nat): Kept
    decreases SizeProps(properties), 2, |properties|
  {
    if properties == [] then Kept(notes, [])
    else
      var key, child := properties[0].key, properties[0].child;
      var path := Join(where, key);
      match FateOf(p, properties[0], key in required, path)
      case GiveUp(excludesTool) => GivenUp(notes, excludesTool)
      case Leave(reason) =>
        DeriveArguments(p, properties[1..], required, depth, where,
                        notes.(withheld := notes.withheld[path := reason]), count)
      case Keep(rule) =>
        var derived := if GoodName(key) && count < LIMIT_PROPERTIES then Derive(p, child, depth + 1, path, false, notes)
                       else Result(notes, Unsupported(false));
        match derived.derived
        case Derived(schema) =>
          var noted := if rule.Some? then derived.notes.(allowedKept := derived.notes.allowedKept[path := rule.value])
                       else derived.notes;
          Prepend(Argument(key, schema), DeriveArguments(p, properties[1..], required, depth, where, noted, count + 1))
        case Unsupported(excludesTool) =>
          if excludesTool || key in required then GivenUp(derived.notes, excludesTool)
          else
            DeriveArguments(p, properties[1..], required, depth, where,
                            derived.notes.(withheld := derived.notes.withheld[path := "unsupported schema"]), count)
  }

  function Prepend(argument: Argument, kept: Kept): Kept {
    if kept.GivenUp? then kept else kept.(arguments := [argument] + kept.arguments)
  }

  const NOTHING := Notes(map[], map[], {})

  /** `deriveInputSchema` */
  function DeriveInput(p: Policy, raw: Raw): Result {
    var r := Derive(p, raw, 0, "", true, NOTHING);
    if r.derived.Derived? && !r.derived.schema.Obj? then r.(derived := Unsupported(false)) else r
  }
}
