/** A fact that leaves a stale status, in the words the program uses. */
module ActivityStale {
  import opened Common
  import opened Activity
  import opened ActivityInvariant
  import N = Narration
  import T = NarrationTheorems

  const MEMORY := N.Descriptor(N.OtherOperation, N.Memory, None, "memory", true, N.Work)
  const WEB := N.Descriptor(N.OtherOperation, N.Web, None, "pages", true, N.Work)

  /** Memory and web run, and the newer one loses its target: memory is the call to show, the status still says web. */
  const STALE := [ToolStart("a", MEMORY), ToolStart("b", WEB), Told("b", UNKNOWN)]

  const CALL_A := Call("a", MEMORY, 0)
  const CALL_B := Call("b", WEB, 1)
  const CALL_C := Call("b", UNKNOWN, 1)

  function One(copy: Copy): Sub {
    FRESH.(seen := {"a"}, active := [CALL_A], next := 1, last := Some(copy.started(MEMORY).text))
  }

  function Two(copy: Copy): Sub {
    One(copy).(seen := {"a", "b"}, active := [CALL_A, CALL_B], next := 2, last := Some(copy.started(WEB).text))
  }

  function Three(copy: Copy): Sub {
    Two(copy).(active := [CALL_A, CALL_C], facts := [Fact("b", UNKNOWN)])
  }

  lemma ReachOne(copy: Copy)
    ensures Apply(copy, FRESH, STALE[0]).sub == One(copy)
  {
    LatestOfOne([], CALL_A);
    assert [] + [CALL_A] == [CALL_A];
  }

  lemma ReachTwo(copy: Copy)
    ensures Apply(copy, One(copy), STALE[1]).sub == Two(copy)
  {
    LatestAfterNew([CALL_A], CALL_B);
    assert [CALL_A] + [CALL_B] == [CALL_A, CALL_B];
    assert !Runs([CALL_A], "b");
  }

  lemma LatestOfThree()
    ensures Latest([CALL_A, CALL_C]) == Some(CALL_A)
  {
    assert [CALL_A, CALL_C] == [CALL_A] + [CALL_C];
    LatestAfterNew([CALL_A], CALL_C);
    LatestOfOne([], CALL_A);
    assert [] + [CALL_A] == [CALL_A];
  }

  lemma ReachThree(copy: Copy)
    ensures Apply(copy, Two(copy), STALE[2]).sub == Three(copy)
  {
    RedescribedTwo([CALL_A, CALL_B]);
    LatestOfThree();
    assert WithoutFact([], "b") + [Fact("b", UNKNOWN)] == [Fact("b", UNKNOWN)];
    Renamed(copy, Two(copy), [CALL_A, CALL_C]);
  }

  lemma RedescribedTwo(active: seq<Call>)
    requires active == [CALL_A, CALL_B]
    ensures Redescribed(active, "b", UNKNOWN) == [CALL_A, CALL_C] && Runs(active, "b")
  {
    assert Redescribed([CALL_B], "b", UNKNOWN) == [CALL_C] by { assert [CALL_B][1..] == []; }
    assert active[1..] == [CALL_B];
    assert CALL_B == active[1];
  }

  /** The fact is noted and the call renamed, and nothing is shown: another call is the latest. */
  lemma Renamed(copy: Copy, sub: Sub, active: seq<Call>)
    requires !sub.suppressed && Runs(sub.active, "b") && sub.facts == []
    requires Redescribed(sub.active, "b", UNKNOWN) == active
    requires Latest(active) == Some(CALL_A) && WithoutFact([], "b") + [Fact("b", UNKNOWN)] == [Fact("b", UNKNOWN)]
    ensures Register(copy, sub, "b", UNKNOWN).sub == sub.(active := active, facts := [Fact("b", UNKNOWN)])
  {
  }

  lemma ReachStale(copy: Copy)
    ensures Run(copy, STALE) == Three(copy)
  {
    ReachOne(copy);
    ReachTwo(copy);
    ReachThree(copy);
    assert STALE[..1][..0] == [] && STALE[..2][..1] == STALE[..1];
    assert Run(copy, STALE[..1]) == One(copy);
    assert Run(copy, STALE[..2]) == Two(copy);
  }

  /** Work that starts is said with the verb of its copy. */
  lemma SaysVerb(checks: N.Checks, d: Descriptor, action: N.Action)
    requires N.CopyOf(checks, Some(d), N.Started).Some? && N.CopyOf(checks, Some(d), N.Started).value.0.action == action
    ensures N.Verb(action) <= Spoken(checks).started(d).text
  {
    T.EveryNarrationIsSafe(checks, Some(d), N.Started);
    StartsText(N.Verb(action), N.Narrate(checks, Some(d), N.Started).value.item);
    SpokenIsNarration(checks, d);
  }

  lemma StartsText(verb: string, item: string)
    ensures verb <= verb + " " + item + "…"
  {
  }

  lemma SpokenIsNarration(checks: N.Checks, d: Descriptor)
    requires N.Narrate(checks, Some(d), N.Started).Some?
    ensures Spoken(checks).started(d) == N.Narrate(checks, Some(d), N.Started).value
  {
  }

  /** And with its item, when that is normal and no credential. */
  lemma SaysItem(checks: N.Checks, d: Descriptor, action: N.Action, item: string)
    requires N.CopyOf(checks, Some(d), N.Started).Some? && N.CopyOf(checks, Some(d), N.Started).value.0.action == action
    requires N.CopyOf(checks, Some(d), N.Started).value.0.item == item
    requires N.SafeLabel(item) == item && !checks.credential(item)
    ensures Spoken(checks).started(d).text == N.Verb(action) + " " + item + "…"
  {
    T.EveryNarrationIsSafe(checks, Some(d), N.Started);
  }

  lemma CopyOfMemory(checks: N.Checks)
    ensures N.CopyOf(checks, Some(MEMORY), N.Started).Some?
    ensures N.CopyOf(checks, Some(MEMORY), N.Started).value.0.action == N.CheckingIt
  {
  }

  lemma CopyOfWeb(checks: N.Checks)
    ensures N.CopyOf(checks, Some(WEB), N.Started).Some?
    ensures N.CopyOf(checks, Some(WEB), N.Started).value.0 == N.Copy(N.Reading, N.ReadingIt, "a web page")
  {
  }

  lemma WebPage()
    ensures N.SafeLabel("a web page") == "a web page"
  {
    T.ThreeWords("a", "web", "page", "a web page");
    T.NormalStays("a web page");
  }

  /** Memory is being checked, and the web read. */
  lemma SaidApart(checks: N.Checks)
    ensures Spoken(checks).started(MEMORY).text != Spoken(checks).started(WEB).text
  {
    CopyOfMemory(checks);
    SaysVerb(checks, MEMORY, N.CheckingIt);
    CopyOfWeb(checks);
    SaysVerb(checks, WEB, N.ReadingIt);
    VerbsDiffer(Spoken(checks).started(MEMORY).text, Spoken(checks).started(WEB).text);
  }

  lemma VerbsDiffer(memory: string, web: string)
    requires N.Verb(N.CheckingIt) <= memory && N.Verb(N.ReadingIt) <= web
    ensures memory != web
  {
    assert memory[0] == "Checking"[0] && web[0] == "Reading"[0];
  }

  lemma StaleUnlessAlike(copy: Copy)
    requires copy.started(MEMORY).text != copy.started(WEB).text
    ensures var sub := Run(copy, STALE);
            Latest(sub.active) == Some(CALL_A) && sub.last == Some(copy.started(WEB).text) && !Agrees(copy, sub)
  {
    ReachStale(copy);
    RunIsOk(copy, STALE);
    LatestOfThree();
    AgreesIsLatest(copy, Three(copy));
  }

  /**
   * Whatever the word lists say, the memory call is the one to show, and the last status reads
   * "Reading a web page…".
   */
  lemma FactCanLeaveStaleStatus(checks: N.Checks)
    ensures var copy := Spoken(checks);
            var sub := Run(copy, STALE);
            Latest(sub.active) == Some(CALL_A) && sub.last == Some(copy.started(WEB).text) && !Agrees(copy, sub)
    ensures !checks.credential("a web page") ==>
              Spoken(checks).started(WEB).text == N.Verb(N.ReadingIt) + " " + "a web page" + "…"
  {
    SaidApart(checks);
    StaleUnlessAlike(Spoken(checks));
    if !checks.credential("a web page") {
      CopyOfWeb(checks);
      WebPage();
      SaysItem(checks, WEB, N.ReadingIt, "a web page");
    }
  }
}
