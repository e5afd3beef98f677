/** The textual form of action references (qa/live/runner.ts:512-513, 847-857). */
module LiveRefs {
  import opened Common
  import opened Decimal
  import opened LiveJournal

  function Front(ref: Ref): string {
    ref.variant + ":" + Show(ref.index + 1)
  }

  function Print(ref: Ref): string {
    Front(ref) + ":" + Show(ref.attempt)
  }

  /** The text after the last colon, as `split(':').at(-1)` gives it. */
  function AfterLastColon(s: string): string {
    if s == "" then ""
    else if s[|s| - 1] == ':' then ""
    else AfterLastColon(s[..|s| - 1]) + [s[|s| - 1]]
  }

  /** The text before the last colon, if there is one. */
  function BeforeLastColon(s: string): Option<string> {
    if s == "" then None
    else if s[|s| - 1] == ':' then Some(s[..|s| - 1])
    else BeforeLastColon(s[..|s| - 1])
  }

  /** `Number` on a part, with the check for a positive whole number. */
  function PositiveNumber(part: string): Option<nat> {
    if part != "" && AllDigits(part) && Value(part) >= 1 then Some(Value(part)) else None
  }

  function ActionIndexFromRef(text: string): Option<nat> {
    match BeforeLastColon(text)
    case None => None
    case Some(front) =>
      match PositiveNumber(AfterLastColon(front))
      case None => None
      case Some(n) => if n == 0 then None else Some(n - 1)
  }

  function AttemptFromRef(text: string): Option<nat> {
    PositiveNumber(AfterLastColon(text))
  }

  lemma {:induction false} LastColon(a: string, d: string)
    requires AllDigits(d)
    ensures AfterLastColon(a + ":" + d) == d && BeforeLastColon(a + ":" + d) == Some(a)
    decreases |d|
  {
    var s := a + ":" + d;
    if d == "" {
      assert s == a + ":" && s[..|s| - 1] == a;
    } else {
      var init := d[..|d| - 1];
      assert s[..|s| - 1] == a + ":" + init;
      LastColon(a, init);
    }
  }

  lemma PrintedParts(ref: Ref)
    ensures BeforeLastColon(Print(ref)) == Some(Front(ref)) && AfterLastColon(Print(ref)) == Show(ref.attempt)
    ensures BeforeLastColon(Front(ref)) == Some(ref.variant) && AfterLastColon(Front(ref)) == Show(ref.index + 1)
  {
    LastColon(Front(ref), Show(ref.attempt));
    LastColon(ref.variant, Show(ref.index + 1));
  }

  lemma ShowIsInjective(m: nat, n: nat)
    requires Show(m) == Show(n)
    ensures m == n
  {
    ShowThenValue(m);
    ShowThenValue(n);
  }

  lemma ShownNumber(n: nat)
    requires n >= 1
    ensures PositiveNumber(Show(n)) == Some(n)
  {
    ShowThenValue(n);
  }

  lemma IndexOfParts(text: string, front: string, number: string, n: nat)
    requires BeforeLastColon(text) == Some(front) && AfterLastColon(front) == number
             && PositiveNumber(number) == Some(n)
    ensures ActionIndexFromRef(text) == if n == 0 then None else Some(n - 1)
  {
  }

  /** Reading a printed reference gives back its action index and attempt. */
  lemma PrintedRefReadsBack(ref: Ref)
    requires ref.attempt >= 1
    ensures ActionIndexFromRef(Print(ref)) == Some(ref.index)
    ensures AttemptFromRef(Print(ref)) == Some(ref.attempt)
  {
    PrintedParts(ref);
    ShownNumber(ref.index + 1);
    ShownNumber(ref.attempt);
    IndexOfParts(Print(ref), Front(ref), Show(ref.index + 1), ref.index + 1);
  }

  /** Whatever the variant ids look like, two references never share a text, so intent ids are unique. */
  lemma PrintIsInjective(r: Ref, r': Ref)
    requires Print(r) == Print(r')
    ensures r == r'
  {
    PrintedParts(r);
    PrintedParts(r');
    ShowIsInjective(r.attempt, r'.attempt);
    ShowIsInjective(r.index + 1, r'.index + 1);
  }
}
