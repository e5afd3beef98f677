/** Every narration fits the status line, is never cut, and passes the wire check. */
module NarrationTheorems {
  import opened Common
  import opened Narration

  // ---- label normalisation is idempotent ----

  predicate GoodChar(c: char) {
    !Control(c) && !Markup(c) && (IsSpace(c) ==> c == ' ')
  }

  ghost predicate Clean(s: string) {
    forall i :: 0 <= i < |s| ==> GoodChar(s[i])
  }

  ghost predicate SingleSpaced(s: string) {
    forall i :: 0 <= i < |s| - 1 ==> !(s[i] == ' ' && s[i + 1] == ' ')
  }

  /** What a normalised text looks like. */
  ghost predicate Normal(s: string) {
    s != "" && Clean(s) && SingleSpaced(s) && s[0] != ' ' && s[|s| - 1] != ' '
  }

  ghost predicate NoControls(s: string) {
    forall i :: 0 <= i < |s| ==> !Control(s[i])
  }

  ghost predicate NoMarkup(s: string) {
    forall i :: 0 <= i < |s| ==> !Markup(s[i])
  }

  lemma {:induction false} ControlsGo(s: string)
    ensures NoControls(WithoutControls(s)) && Units(WithoutControls(s)) == Units(s)
  {
    if s != "" {
      ControlsGo(s[1..]);
      assert WithoutControls(s)[1..] == WithoutControls(s[1..]);
    }
  }

  lemma {:induction false} NoControlsStays(s: string)
    requires NoControls(s)
    ensures WithoutControls(s) == s
  {
    if s != "" {
      NoControlsStays(s[1..]);
    }
  }

  lemma {:induction false} MarkupGoes(s: string)
    requires NoControls(s)
    ensures NoControls(WithoutMarkup(s)) && NoMarkup(WithoutMarkup(s)) && Units(WithoutMarkup(s)) <= Units(s)
  {
    if s != "" {
      MarkupGoes(s[1..]);
      if Markup(s[0]) {
        assert WithoutMarkup(s) == WithoutMarkup(s[1..]);
      } else {
        assert WithoutMarkup(s)[1..] == WithoutMarkup(s[1..]);
      }
    }
  }

  lemma {:induction false} NoMarkupStays(s: string)
    requires NoMarkup(s)
    ensures WithoutMarkup(s) == s
  {
    if s != "" {
      NoMarkupStays(s[1..]);
      assert s == [s[0]] + s[1..];
    }
  }

  lemma ConsClean(c: char, s: string)
    requires GoodChar(c) && Clean(s) && SingleSpaced(s) && (c == ' ' && s != "" ==> s[0] != ' ')
    ensures Clean([c] + s) && SingleSpaced([c] + s)
  {
  }

  lemma {:induction false} SqueezedIsClean(s: string)
    requires NoControls(s) && NoMarkup(s)
    ensures Clean(Squeezed(s)) && SingleSpaced(Squeezed(s))
    ensures s != "" ==> Squeezed(s) != "" && Squeezed(s)[0] == if IsSpace(s[0]) then ' ' else s[0]
    ensures Units(Squeezed(s)) <= Units(s)
  {
    if s != "" {
      SqueezedIsClean(s[1..]);
      if !IsSpace(s[0]) {
        ConsClean(s[0], Squeezed(s[1..]));
        assert Squeezed(s)[1..] == Squeezed(s[1..]);
      } else if !(|s| > 1 && IsSpace(s[1])) {
        ConsClean(' ', Squeezed(s[1..]));
        assert Squeezed(s)[1..] == Squeezed(s[1..]);
      }
    }
  }

  lemma {:induction false} SqueezedStays(s: string)
    requires Clean(s) && SingleSpaced(s)
    ensures Squeezed(s) == s
  {
    if s != "" {
      SqueezedStays(s[1..]);
    }
  }

  lemma {:induction false} TrimStartKeeps(s: string)
    requires Clean(s) && SingleSpaced(s)
    ensures Clean(TrimStart(s)) && SingleSpaced(TrimStart(s)) && Units(TrimStart(s)) <= Units(s)
    ensures TrimStart(s) != "" ==> TrimStart(s)[0] != ' '
  {
    if s != "" && IsSpace(s[0]) {
      TrimStartKeeps(s[1..]);
    }
  }

  lemma {:induction false} UnitsAppend(a: string, b: string)
    ensures Units(a + b) == Units(a) + Units(b)
  {
    if a == "" {
      assert a + b == b;
    } else {
      assert (a + b)[1..] == a[1..] + b;
      UnitsAppend(a[1..], b);
    }
  }

  lemma {:induction false} TrimEndKeeps(s: string)
    requires Clean(s) && SingleSpaced(s) && (s != "" ==> s[0] != ' ')
    ensures TrimEnd(s) != "" ==> Normal(TrimEnd(s))
    ensures Units(TrimEnd(s)) <= Units(s)
    decreases |s|
  {
    if s != "" && IsSpace(s[|s| - 1]) {
      var init := s[..|s| - 1];
      assert s == init + [s[|s| - 1]];
      UnitsAppend(init, [s[|s| - 1]]);
      TrimEndKeeps(init);
    }
  }

  lemma TrimKeeps(s: string)
    requires Clean(s) && SingleSpaced(s)
    ensures Trim(s) != "" ==> Normal(Trim(s))
    ensures Units(Trim(s)) <= Units(s)
  {
    TrimStartKeeps(s);
    TrimEndKeeps(TrimStart(s));
  }

  lemma StandInIsNormal()
    ensures Normal("connection")
  {
  }

  /** A normalised text is normal, and no longer than its source unless it is the stand-in. */
  lemma SafeLabelIsNormal(s: string)
    ensures Normal(SafeLabel(s))
    ensures Units(SafeLabel(s)) <= Units(s) || SafeLabel(s) == "connection"
  {
    ControlsGo(s);
    MarkupGoes(WithoutControls(s));
    SqueezedIsClean(WithoutMarkup(WithoutControls(s)));
    TrimKeeps(Squeezed(WithoutMarkup(WithoutControls(s))));
    StandInIsNormal();
  }

  /** A normal text stays as it is, so normalising twice is normalising once. */
  lemma NormalStays(s: string)
    requires Normal(s)
    ensures SafeLabel(s) == s
  {
    NoControlsStays(s);
    NoMarkupStays(s);
    SqueezedStays(s);
  }

  // ---- lengths ----

  lemma {:induction false} UnitsPlain(s: string)
    requires Basic(s)
    ensures Units(s) == |s|
  {
    if s != "" {
      UnitsPlain(s[1..]);
    }
  }

  /** Copy that leaves room for its item. */
  ghost predicate Fits(c: Copy) {
    Units(Verb(c.action)) + Units(c.item) <= 48
  }

  /** What the first pass makes of an item. */
  function SafeItem(checks: Checks, item: string): string {
    if checks.credential(SafeLabel(item)) then "the current item" else SafeLabel(item)
  }

  ghost predicate Basic(s: string) {
    forall i :: 0 <= i < |s| ==> s[i] < '\U{10000}'
  }

  lemma CurrentItem(s: string)
    requires s == "the current item"
    ensures Normal(s) && Units(s) == 16
  {
    ThreeWords("the", "current", "item", s);
    UnitsPlain(s);
  }

  lemma ThreeWords(a: string, b: string, c: string, s: string)
    requires Letters(a) && Letters(b) && Letters(c) && s == a + " " + b + " " + c
    ensures Normal(s) && Basic(s)
  {
    assert forall i :: 0 <= i < |s| ==> Letter(s[i]) || (s[i] == ' ' && (i == |a| || i == |a| + |b| + 1));
    assert s[|a|] == ' ' && s[|a| + |b| + 1] == ' ';
  }

  lemma Connection(s: string)
    requires s == "connection"
    ensures Units(s) == 10
  {
    UnitsPlain(s);
  }

  lemma SafeItemIsNormal(checks: Checks, item: string)
    ensures Normal(SafeItem(checks, item))
    ensures Units(SafeItem(checks, item)) <= Units(item) || Units(SafeItem(checks, item)) <= 16
  {
    var safe := SafeItem(checks, item);
    SafeLabelIsNormal(item);
    if checks.credential(SafeLabel(item)) {
      CurrentItem(safe);
    } else if Units(safe) > Units(item) {
      Connection(safe);
    }
  }

  lemma SafeItemStays(checks: Checks, item: string)
    ensures SafeItem(checks, SafeItem(checks, item)) == SafeItem(checks, item)
  {
    SafeItemIsNormal(checks, item);
    NormalStays(SafeItem(checks, item));
  }

  lemma TextUnits(action: string, item: string)
    ensures Units(action + " " + item + "…") == Units(action) + Units(item) + 2
  {
    UnitsAppend(action, " ");
    UnitsAppend(action + " ", item);
    UnitsAppend(action + " " + item, "…");
    UnitsPlain(" ");
    UnitsPlain("…");
  }

  // ---- the copy all fits ----

  predicate Letter(c: char) {
    'A' <= c <= 'Z' || 'a' <= c <= 'z'
  }

  ghost predicate Letters(s: string) {
    s != "" && forall i :: 0 <= i < |s| ==> Letter(s[i])
  }

  lemma OneWord(s: string)
    requires Letters(s)
    ensures Normal(s) && Basic(s)
  {
  }

  lemma TwoWords(a: string, b: string, s: string)
    requires Letters(a) && Letters(b) && s == a + " " + b
    ensures Normal(s) && Basic(s)
  {
    assert forall i :: 0 <= i < |s| ==> Letter(s[i]) || (s[i] == ' ' && i == |a|);
    assert s[|a|] == ' ';
  }

  lemma WordWithColon(a: string, s: string)
    requires Letters(a) && s == a + ":"
    ensures Normal(s) && Basic(s)
  {
    assert forall i :: 0 <= i < |s| ==> Letter(s[i]) || (s[i] == ':' && i == |a|);
    assert s[|a|] == ':';
  }

  predicate IsSingle(a: Action) {
    a != WorkingOn && a != SendingWith && a != SettingUp && a != SearchingFor
  }

  lemma SingleVerbs(a: Action)
    requires IsSingle(a)
    ensures Letters(Verb(a))
  {
  }

  lemma WorkingOnIsNormal()
    ensures Normal(Verb(WorkingOn)) && Basic(Verb(WorkingOn))
  {
    TwoWords("Working", "on", "Working on");
  }

  lemma SendingWithIsNormal()
    ensures Normal(Verb(SendingWith)) && Basic(Verb(SendingWith))
  {
    TwoWords("Sending", "with", "Sending with");
  }

  lemma SettingUpIsNormal()
    ensures Normal(Verb(SettingUp)) && Basic(Verb(SettingUp))
  {
    TwoWords("Setting", "up", "Setting up");
  }

  lemma SearchingForIsNormal()
    ensures Normal(Verb(SearchingFor)) && Basic(Verb(SearchingFor))
  {
    WordWithColon("Searching", "Searching:");
  }

  lemma VerbIsNormal(a: Action)
    ensures Normal(Verb(a)) && Basic(Verb(a))
  {
    match a
    case WorkingOn => WorkingOnIsNormal();
    case SendingWith => SendingWithIsNormal();
    case SettingUp => SettingUpIsNormal();
    case SearchingFor => SearchingForIsNormal();
    case _ =>
      SingleVerbs(a);
      OneWord(Verb(a));
  }

  lemma VerbLength(a: Action)
    ensures |Verb(a)| <= 12 && Verb(a) != "Thinking"
  {
    assert "Thinking"[0] == 'T';
  }

  lemma VerbUnits(a: Action)
    ensures Units(Verb(a)) == |Verb(a)|
  {
    VerbIsNormal(a);
    UnitsPlain(Verb(a));
  }

  /** What is said of a normal action, whatever the item. */
  lemma SaidInFull(checks: Checks, kind: Kind, verb: string, item: string, family: Family, phase: Phase)
    requires Normal(verb) && verb != "Thinking" && Units(verb) <= 12 && Units(verb) + Units(item) <= 48
    ensures var safe := SafeItem(checks, item);
            && ActivityStatus(checks, kind, verb, item, family, phase)
               == Status(kind, verb, safe, family, phase, verb + " " + safe + "…")
            && Units(verb) + Units(safe) <= 48
  {
    NormalStays(verb);
    SafeItemIsNormal(checks, item);
  }

  /** Copy that fits is said in full and passes the wire check. */
  lemma FittingCopyIsSafe(checks: Checks, c: Copy, family: Family, phase: Phase)
    requires Fits(c)
    ensures var s := Said(checks, c, family, phase);
            && Units(s.text) <= 50 && s.action == Verb(c.action) && s.item == SafeItem(checks, c.item)
            && s.text == Verb(c.action) + " " + SafeItem(checks, c.item) + "…"
            && WireAccepts(checks, s)
  {
    var verb, item := Verb(c.action), SafeItem(checks, c.item);
    VerbIsNormal(c.action);
    VerbLength(c.action);
    VerbUnits(c.action);
    SaidInFull(checks, c.kind, verb, c.item, family, phase);
    SaidInFull(checks, c.kind, verb, item, family, phase);
    SafeItemStays(checks, c.item);
    TextUnits(verb, item);
  }

  lemma {:induction false} UnitsBounds(s: string)
    ensures |s| <= Units(s) <= 2 * |s|
  {
    if s != "" {
      UnitsBounds(s[1..]);
    }
  }

  /** Copy with a short fixed item. */
  lemma ShortFits(c: Copy)
    requires |Verb(c.action)| + 2 * |c.item| <= 48
    ensures Fits(c)
  {
    VerbUnits(c.action);
    UnitsBounds(c.item);
  }

  lemma GenericFits(e: Event)
    ensures Fits(Generic(e))
  {
    ShortFits(Generic(e));
  }

  lemma BoundedFits(wish: Copy, e: Event)
    ensures Fits(BoundedOrGeneric(wish, e))
  {
    GenericFits(e);
    TextUnits(Verb(wish.action), wish.item);
  }

  lemma ManagedFits(checks: Checks, d: Descriptor, e: Event)
    ensures Fits(ManagedCopy(checks, d, e))
  {
    if d.name.None? || !checks.managedName(d.name.value.text) {
      GenericFits(e);
    } else {
      BoundedFits(ManagedWish(checks, d, d.name.value.text, e), e);
    }
  }

  /** A name that fits the longest copy of its family fits with exactly the units around it. */
  lemma NameFits(before: string, name: string, after: string)
    requires Units(before + name + after) <= 50
    ensures |before| + Units(name) + |after| <= 50
  {
    UnitsAppend(before, name);
    UnitsAppend(before + name, after);
    UnitsBounds(before);
    UnitsBounds(after);
  }

  lemma Around(before: string, name: string, after: string)
    requires Basic(before) && Basic(after)
    ensures Units(before + name + after) == |before| + Units(name) + |after|
  {
    UnitsAppend(before, name);
    UnitsAppend(before + name, after);
    UnitsPlain(before);
    UnitsPlain(after);
  }

  lemma ResultsFit(name: string)
    requires Units("Reviewing " + name + " results…") <= 50
    ensures Units(name) <= 31 && Units(name + " results") == Units(name) + 8
  {
    NameFits("Reviewing ", name, " results…");
    Around("", name, " results");
    assert "" + name + " results" == name + " results";
  }

  lemma ConnectionFits(checks: Checks, d: Descriptor, e: Event)
    requires d.target == CustomConnection
    ensures Fits(FamilyCopy(checks, d, e))
  {
    var c := FamilyCopy(checks, d, e);
    var name := Fitting(checks, d, ConnectionName, "Reviewing ", " results…");
    if name.Some? {
      ResultsFit(name.value);
      VerbUnits(c.action);
    } else {
      ShortFits(c);
    }
  }

  lemma SkillFits(checks: Checks, d: Descriptor, e: Event)
    requires d.target == Skill
    ensures Fits(FamilyCopy(checks, d, e))
  {
    var c := FamilyCopy(checks, d, e);
    var name := Fitting(checks, d, SkillName, "Following the ", " skill…");
    VerbUnits(c.action);
    if name.Some? {
      NameFits("Following the ", name.value, " skill…");
      Around("the ", name.value, " skill");
    } else {
      ShortFits(c);
    }
  }

  lemma HostFits(c: Copy)
    requires (c.action == ReadingIt || c.action == Testing) && Units(c.item) <= 41
    ensures Fits(c)
  {
    VerbUnits(c.action);
  }

  lemma QueryFits(c: Copy, query: string)
    requires c.action == SearchingFor && c.item == "“" + query + "”" && Units(query) <= 36
    ensures Fits(c)
  {
    VerbUnits(SearchingFor);
    Around("“", query, "”");
  }

  lemma WebFits(checks: Checks, d: Descriptor, e: Event)
    requires IsDescriptor(checks, d) && d.target == Web
    ensures Fits(FamilyCopy(checks, d, e))
  {
    var c := FamilyCopy(checks, d, e);
    if c.action == SearchingFor {
      QueryFits(c, d.name.value.text);
    } else if c.action == ReadingIt && WebText(d, WebHost).Some? {
      HostFits(c);
    } else {
      ShortFits(c);
    }
  }

  lemma SetupFits(checks: Checks, d: Descriptor, e: Event)
    requires IsDescriptor(checks, d) && d.target == ConnectionSetup
    ensures Fits(FamilyCopy(checks, d, e))
  {
    var c := FamilyCopy(checks, d, e);
    if c.action == Testing {
      HostFits(c);
    } else {
      ShortFits(c);
    }
  }

  lemma AnswerFits()
    ensures Fits(Copy(Writing, DraftingIt, "the response"))
  {
    ShortFits(Copy(Writing, DraftingIt, "the response"));
  }

  lemma ReassessingFits()
    ensures Fits(Copy(Preparing, ReassessingIt, "the request"))
  {
    ShortFits(Copy(Preparing, ReassessingIt, "the request"));
  }

  lemma FamilyFits(checks: Checks, d: Descriptor, e: Event)
    requires IsDescriptor(checks, d)
    ensures Fits(FamilyCopy(checks, d, e))
  {
    match d.target
    case CustomConnection => ConnectionFits(checks, d, e);
    case Skill => SkillFits(checks, d, e);
    case Web => WebFits(checks, d, e);
    case ConnectionSetup => SetupFits(checks, d, e);
    case _ => ShortFits(FamilyCopy(checks, d, e));
  }

  lemma CopyFits(checks: Checks, value: Option<Descriptor>, e: Event)
    ensures CopyOf(checks, value, e).Some? ==> Fits(CopyOf(checks, value, e).value.0)
  {
    if value.None? || !IsDescriptor(checks, value.value) {
      GenericFits(e);
      return;
    }
    var d := value.value;
    if d.role == InternalHidden {
    } else if d.role == AnswerGeneration {
      AnswerFits();
    } else if e.Settled? && !e.succeeded {
      ReassessingFits();
    } else if d.target == UnknownFamily {
      GenericFits(e);
    } else if d.target == ManagedConnector {
      ManagedFits(checks, d, e);
    } else {
      FamilyFits(checks, d, e);
    }
  }

  /**
   * Every narration, of any descriptor, valid or not, and any event, is absent, or holds at most 50
   * UTF-16 units, says its action and item in full, and passes the wire check.
   */
  lemma EveryNarrationIsSafe(checks: Checks, value: Option<Descriptor>, e: Event)
    requires Narrate(checks, value, e).Some?
    ensures var s, c := Narrate(checks, value, e).value, CopyOf(checks, value, e).value.0;
            && Units(s.text) <= 50 && WireAccepts(checks, s)
            && s.action == Verb(c.action) && s.item == SafeItem(checks, c.item)
            && s.text == s.action + " " + s.item + "…"
  {
    CopyFits(checks, value, e);
    var c := CopyOf(checks, value, e).value;
    FittingCopyIsSafe(checks, c.0, c.1, c.2);
  }
}
