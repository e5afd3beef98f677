/** Parsing composes, here-document bodies contribute nothing, and printed commands read back. */
module ShellTheorems {
  import opened Common
  import opened Decimal
  import opened Shell

  // ---- commands only accumulate ----

  function Prefixed(c: seq<Command>, st: State): State {
    st.(commands := c + st.commands)
  }

  function PrefixedStep(c: seq<Command>, step: Step): Step {
    if step.Stop? then Stop else step.(st := Prefixed(c, step.st))
  }

  function PrefixedRun(c: seq<Command>, run: Run): Run {
    if run.Failed? then Failed else run.(st := Prefixed(c, run.st))
  }

  lemma FinishWordPrefixed(c: seq<Command>, st: State)
    ensures FinishWord(Prefixed(c, st)) == Prefixed(c, FinishWord(st))
  {
  }

  lemma FinishCommandPrefixed(c: seq<Command>, st: State)
    ensures FinishCommand(Prefixed(c, st)) == Prefixed(c, FinishCommand(st))
  {
    FinishWordPrefixed(c, st);
    var done := FinishWord(st);
    assert c + done.commands + [Command(done.words, done.output)]
        == c + (done.commands + [Command(done.words, done.output)]);
  }

  lemma BeginPrefixed(c: seq<Command>, st: State, redirection: Redirection, output: bool)
    ensures BeginRedirection(Prefixed(c, st), redirection, output)
            == Prefixed(c, BeginRedirection(st, redirection, output))
  {
    if st.pending.None? && !(st.started && st.word != "" && AllDigits(st.word)) {
      FinishWordPrefixed(c, st);
    }
  }

  lemma QuotedPrefixed(c: seq<Command>, s: string, st: State)
    requires s != "" && st.quote != Unquoted
    ensures Quoted(s, Prefixed(c, st)) == PrefixedStep(c, Quoted(s, st))
  {
  }

  lemma RedirectPrefixed(c: seq<Command>, s: string, st: State)
    requires s != "" && (s[0] == '<' || s[0] == '>')
    ensures Redirect(s, Prefixed(c, st)) == PrefixedStep(c, Redirect(s, st))
  {
    BeginPrefixed(c, st, Redirection(Some(At(s, 2) == Some('-'))), false);
    BeginPrefixed(c, st, Redirection(None), s[0] == '>' || At(s, 1) == Some('>'));
  }

  lemma NewlinePrefixed(c: seq<Command>, s: string, st: State)
    requires s != "" && s[0] == '\n'
    ensures Newline(s, Prefixed(c, st)) == PrefixedStep(c, Newline(s, st))
  {
    FinishCommandPrefixed(c, st);
  }

  lemma StepPrefixed(c: seq<Command>, s: string, st: State)
    requires s != ""
    ensures StepOn(s, Prefixed(c, st)) == PrefixedStep(c, StepOn(s, st))
  {
    var ch := s[0];
    if st.quote != Unquoted {
      QuotedPrefixed(c, s, st);
    } else if ch == '<' || ch == '>' {
      RedirectPrefixed(c, s, st);
    } else if ch == '\n' {
      NewlinePrefixed(c, s, st);
    } else if ch == '&' {
      FinishCommandPrefixed(c, st);
      BeginPrefixed(c, st, Redirection(None), true);
    } else if ch == ';' || ch == '|' {
      FinishCommandPrefixed(c, st);
    } else if IsSpace(ch) {
      FinishWordPrefixed(c, st);
    }
  }

  lemma {:induction false} RunPrefixed(c: seq<Command>, s: string, st: State, tail: Tail)
    ensures RunOn(s, Prefixed(c, st), tail) == PrefixedRun(c, RunOn(s, st, tail))
    decreases |s|
  {
    if s != "" {
      StepPrefixed(c, s, st);
      StepMoves(s, st);
      match StepOn(s, st)
      case Stop =>
      case Go(n, st', tail') => RunPrefixed(c, s[n..], st', tail');
    }
  }

  /** Parsing from a clean state that already holds the commands `c`. */
  lemma ParseAfter(c: seq<Command>, s: string)
    ensures Conclude(RunOn(s, START.(commands := c), Plain))
            == match Parse(s) case None => None case Some(d) => Some(c + d)
  {
    assert Prefixed(c, START) == START.(commands := c) by { assert c + [] == c; }
    RunPrefixed(c, s, START, Plain);
    var run := RunOn(s, START, Plain);
    if run.Ended? {
      FinishCommandPrefixed(c, run.st);
    }
  }

  // ---- more text behind the source ----

  /** Here-documents that wait for their body have a delimiter. */
  predicate GoodDocs(st: State) {
    forall d :: d in st.docs ==> d.delimiter != ""
  }

  lemma FinishKeepsGoodDocs(st: State)
    requires GoodDocs(st)
    ensures GoodDocs(FinishWord(st)) && GoodDocs(FinishCommand(st))
  {
  }

  lemma {:induction false} LineLengthExtends(s: string, t: string)
    ensures LineLength(s + t) == if LineLength(s) < |s| then LineLength(s) else |s| + LineLength(t)
    decreases |s|
  {
    if s == "" {
      assert s + t == t;
    } else if s[0] != '\n' {
      assert (s + t)[1..] == s[1..] + t;
      LineLengthExtends(s[1..], t);
    }
  }

  lemma EmptyLineClosesNothing(doc: HereDoc)
    requires doc.delimiter != ""
    ensures !Closes("", doc) && SkipTo("", "", Closing(doc)).Unclosed?
  {
  }

  /** What `t` behind a source does to a skip over that source. */
  ghost predicate SkipGrows(t: string, skip: Skip, after: Skip)
    requires t != "" && skip.Past?
  {
    && (!skip.open ==> after == skip)
    && (skip.open && t[0] == '\n' ==> after == Past(skip.n + 1, false))
  }

  lemma {:induction false} SkipExtends(s: string, line: string, closes: string -> bool, t: string)
    requires SkipTo(s, line, closes).Past? && t != ""
    ensures SkipGrows(t, SkipTo(s, line, closes), SkipTo(s + t, line, closes))
    decreases |s|
  {
    if s == "" {
      assert s + t == t;
    } else {
      assert (s + t)[0] == s[0] && (s + t)[1..] == s[1..] + t;
      if s[0] != '\n' {
        SkipExtends(s[1..], line + [s[0]], closes, t);
      } else if !closes(line) {
        SkipExtends(s[1..], "", closes, t);
      }
    }
  }

  /** What the line that is still open at the end of `s` holds, `line` being what it held before. */
  function Held(s: string, line: string): string
    decreases |s|
  {
    if s == "" then line else if s[0] == '\n' then Held(s[1..], "") else Held(s[1..], line + [s[0]])
  }

  /**
   * Text behind a source leaves a skip alone if and only if a closing line and its newline were read;
   * in every other case, closing line or none, the skip reads on with what the open line held.
   */
  lemma {:induction false} SkipReadsOn(s: string, line: string, closes: string -> bool, t: string)
    ensures var skip := SkipTo(s, line, closes);
            SkipTo(s + t, line, closes)
            == if skip.Past? && !skip.open then skip else Plus(|s|, SkipTo(t, Held(s, line), closes))
    ensures SkipTo(s, line, closes).Past? && SkipTo(s, line, closes).open ==> closes(Held(s, line))
    decreases |s|
  {
    if s == "" {
      assert s + t == t;
    } else {
      assert (s + t)[0] == s[0] && (s + t)[1..] == s[1..] + t;
      if s[0] != '\n' {
        SkipReadsOn(s[1..], line + [s[0]], closes, t);
      } else if !closes(line) {
        SkipReadsOn(s[1..], "", closes, t);
      }
    }
  }

  /** A skip that ends on an open line has read everything. */
  lemma {:induction false} OpenIsTheEnd(s: string, line: string, closes: string -> bool)
    requires SkipTo(s, line, closes).Past?
    ensures SkipTo(s, line, closes).open ==> SkipTo(s, line, closes).n == |s|
    decreases |s|
  {
    if s != "" {
      if s[0] != '\n' {
        OpenIsTheEnd(s[1..], line + [s[0]], closes);
      } else if !closes(line) {
        OpenIsTheEnd(s[1..], "", closes);
      }
    }
  }

  /** With a document to come, the skip over the first one leaves something and did not end on an open line. */
  lemma MoreToCome(s: string, docs: seq<HereDoc>)
    requires |docs| > 1 && docs[1].delimiter != "" && SkipDocuments(s, docs).Past?
    ensures SkipTo(s, "", Closing(docs[0])).Past? && !SkipTo(s, "", Closing(docs[0])).open
    ensures SkipDocuments(s[SkipTo(s, "", Closing(docs[0])).n..], docs[1..]).Past?
  {
    var skip := SkipTo(s, "", Closing(docs[0]));
    OpenIsTheEnd(s, "", Closing(docs[0]));
    EmptyLineClosesNothing(docs[1]);
    assert docs[1..][0] == docs[1];
    assert s[|s|..] == "";
  }

  lemma OnlyDocument(s: string, docs: seq<HereDoc>)
    requires |docs| == 1
    ensures SkipDocuments(s, docs) == SkipTo(s, "", Closing(docs[0]))
  {
  }

  lemma MoreDocuments(s: string, docs: seq<HereDoc>, t: string, n: nat)
    requires |docs| > 1 && n <= |s| && SkipTo(s + t, "", Closing(docs[0])) == Past(n, false)
    ensures SkipDocuments(s + t, docs) == Plus(n, SkipDocuments(s[n..] + t, docs[1..]))
  {
    assert (s + t)[n..] == s[n..] + t;
  }

  lemma {:induction false} SkipDocumentsExtends(s: string, docs: seq<HereDoc>, t: string)
    requires SkipDocuments(s, docs).Past? && (forall d :: d in docs ==> d.delimiter != "") && t != "" && docs != []
    ensures SkipGrows(t, SkipDocuments(s, docs), SkipDocuments(s + t, docs))
    ensures SkipDocuments(s, docs).open ==> SkipDocuments(s, docs).n == |s|
    decreases |docs|
  {
    SkipExtends(s, "", Closing(docs[0]), t);
    if |docs| == 1 {
      OnlyDocument(s, docs);
      OnlyDocument(s + t, docs);
      OpenIsTheEnd(s, "", Closing(docs[0]));
    } else {
      assert docs[1] in docs;
      MoreToCome(s, docs);
      var n := SkipTo(s, "", Closing(docs[0])).n;
      SkipDocumentsExtends(s[n..], docs[1..], t);
      MoreDocuments(s, docs, t, n);
    }
  }

  /** The text behind a source may start with a space, or with a newline. */
  predicate Follows(t: string) {
    t != "" && (t[0] == ' ' || t[0] == '\n')
  }

  lemma NewlineExtends(s: string, st: State, t: string)
    requires s != "" && s[0] == '\n' && GoodDocs(st) && Follows(t) && Newline(s, st).Go?
    ensures var step := Newline(s, st);
            && (step.tail == Plain ==> Newline(s + t, st) == step)
            && (step.tail == OnDelimiter && t[0] == '\n' ==> Newline(s + t, st) == Go(|s| + 1, step.st, Plain))
            && (step.tail == OnDelimiter ==> step.n == |s|)
            && step.tail != InComment
  {
    var done := FinishCommand(st);
    FinishKeepsGoodDocs(st);
    if done.docs != [] {
      assert (s + t)[1..] == s[1..] + t;
      SkipDocumentsExtends(s[1..], done.docs, t);
    }
  }

  /**
   * A step looks at most two characters ahead, so a space or newline behind the source changes
   * nothing, unless the step ended in a comment, on a closing line, or inside quotes.
   */
  lemma StepExtends(s: string, st: State, t: string)
    requires s != "" && GoodDocs(st) && Follows(t) && StepOn(s, st).Go?
    requires StepOn(s, st).n == |s| ==> StepOn(s, st).st.quote == Unquoted
    ensures var step := StepOn(s, st);
            && (step.tail == Plain ==> StepOn(s + t, st) == step)
            && (step.tail == InComment && t[0] == '\n' ==> StepOn(s + t, st) == Go(|s|, step.st, Plain))
            && (step.tail == OnDelimiter && t[0] == '\n' ==> StepOn(s + t, st) == Go(|s| + 1, step.st, Plain))
            && (step.tail != Plain ==> step.n == |s|)
  {
    assert (s + t)[0] == s[0];
    assert |s| >= 2 ==> At(s + t, 1) == At(s, 1);
    assert |s| >= 3 ==> At(s + t, 2) == At(s, 2);
    assert |s| == 1 ==> At(s + t, 1) == Some(t[0]);
    assert |s| == 2 ==> At(s + t, 2) == Some(t[0]);
    if st.quote == Unquoted {
      if s[0] == '\n' {
        NewlineExtends(s, st, t);
      } else if s[0] == '#' && !st.started {
        LineLengthExtends(s, t);
      }
    }
  }

  /** Running over a source and then over more text is running over both, text and newline included. */
  lemma {:induction false} RunExtends(a: string, st: State, tail: Tail, t: string)
    requires Tidy(st) && Follows(t) && RunOn(a, st, tail).Ended?
    requires RunOn(a, st, tail).st.quote == Unquoted
    requires a == "" ==> tail == Plain
    ensures var run := RunOn(a, st, tail);
            && (run.tail == Plain ==> RunOn(a + t, st, tail) == RunOn(t, run.st, Plain))
            && (run.tail == InComment && t[0] == '\n' ==> RunOn(a + t, st, tail) == RunOn(t, run.st, Plain))
            && (run.tail == OnDelimiter && t[0] == '\n' ==> RunOn(a + t, st, tail) == RunOn(t[1..], run.st, Plain))
    decreases |a|
  {
    if a == "" {
      assert a + t == t;
    } else {
      StepMoves(a, st);
      var Go(n, st', tail') := StepOn(a, st);
      StepIsTidy(a, st);
      if n == |a| {
        assert a[n..] == "";
      }
      StepExtends(a, st, t);
      if n < |a| {
        assert (a + t)[n..] == a[n..] + t;
        RunExtends(a[n..], st', tail', t);
      } else {
        assert (a + t)[n..] == t;
        if tail' == OnDelimiter {
          assert (a + t)[n + 1..] == t[1..];
        }
      }
    }
  }

  // ---- composition ----

  /** `a` parses, and no here-document of its last line still waits for a body. */
  ghost predicate Closed(a: string) {
    && Parse(a).Some?
    && FinishCommand(RunOn(a, START, Plain).st).docs == []
  }

  function Then(first: seq<Command>, second: Option<seq<Command>>): Option<seq<Command>> {
    if second.None? then None else Some(first + second.value)
  }

  /** A word that has not started has no characters. */
  predicate Tidy(st: State) {
    && (st.started || st.word == "")
    && (st.quote != Unquoted ==> st.started)
    && GoodDocs(st)
  }

  lemma CleanAfterFinish(st: State)
    requires Tidy(st) && st.quote == Unquoted && !FinishCommand(st).invalid && FinishCommand(st).docs == []
    ensures FinishCommand(st) == START.(commands := FinishCommand(st).commands)
  {
  }

  lemma FinishIsTidy(st: State)
    requires Tidy(st) && st.quote == Unquoted
    ensures Tidy(FinishWord(st)) && Tidy(FinishCommand(st))
  {
    FinishKeepsGoodDocs(st);
  }

  lemma BeginIsTidy(st: State, redirection: Redirection, output: bool)
    requires Tidy(st) && st.quote == Unquoted
    ensures Tidy(BeginRedirection(st, redirection, output))
  {
    FinishIsTidy(st);
  }

  lemma RedirectIsTidy(s: string, st: State)
    requires s != "" && (s[0] == '<' || s[0] == '>') && Tidy(st) && st.quote == Unquoted
    ensures Redirect(s, st).Go? ==> Tidy(Redirect(s, st).st)
  {
    BeginIsTidy(st, Redirection(Some(At(s, 2) == Some('-'))), false);
    BeginIsTidy(st, Redirection(None), s[0] == '>' || At(s, 1) == Some('>'));
  }

  lemma NewlineIsTidy(s: string, st: State)
    requires s != "" && s[0] == '\n' && Tidy(st) && st.quote == Unquoted
    ensures Newline(s, st).Go? ==> Tidy(Newline(s, st).st)
  {
    FinishIsTidy(st);
  }

  lemma StepIsTidy(s: string, st: State)
    requires s != "" && Tidy(st)
    ensures StepOn(s, st).Go? ==> Tidy(StepOn(s, st).st)
  {
    if st.quote == Unquoted {
      var c := s[0];
      if c == '<' || c == '>' {
        RedirectIsTidy(s, st);
      } else if c == '\n' {
        NewlineIsTidy(s, st);
      } else {
        OtherIsTidy(s, st);
      }
    }
  }

  lemma OtherIsTidy(s: string, st: State)
    requires s != "" && Tidy(st) && st.quote == Unquoted && s[0] != '<' && s[0] != '>' && s[0] != '\n'
    ensures StepOn(s, st).Go? ==> Tidy(StepOn(s, st).st)
  {
    FinishIsTidy(st);
    BeginIsTidy(st, Redirection(None), true);
  }

  lemma {:induction false} RunIsTidy(s: string, st: State, tail: Tail)
    requires Tidy(st)
    ensures RunOn(s, st, tail).Ended? ==> Tidy(RunOn(s, st, tail).st)
    decreases |s|
  {
    if s != "" {
      StepMoves(s, st);
      StepIsTidy(s, st);
      match StepOn(s, st)
      case Stop =>
      case Go(n, st', tail') => RunIsTidy(s[n..], st', tail');
    }
  }

  lemma StepOnDelimiter(s: string, st: State)
    requires s != "" && Tidy(st) && StepOn(s, st).Go? && StepOn(s, st).tail == OnDelimiter
    ensures var st' := StepOn(s, st).st;
            FinishCommand(st') == st' && st'.docs == [] && st' == START.(commands := st'.commands)
  {
    FinishIsTidy(st);
  }

  lemma {:induction false} RunOnDelimiter(s: string, st: State, tail: Tail)
    requires Tidy(st) && RunOn(s, st, tail).Ended? && RunOn(s, st, tail).tail == OnDelimiter
    requires s == "" ==> tail != OnDelimiter
    ensures var st' := RunOn(s, st, tail).st;
            FinishCommand(st') == st' && st'.docs == [] && st' == START.(commands := st'.commands)
    decreases |s|
  {
    StepMoves(s, st);
    StepIsTidy(s, st);
    var Go(n, st', tail') := StepOn(s, st);
    if n == |s| {
      assert s[n..] == "";
      StepOnDelimiter(s, st);
    } else {
      RunOnDelimiter(s[n..], st', tail');
    }
  }

  /** A newline after a finished command leads to a clean state with its commands kept. */
  lemma NewlineIsClean(b: string, st: State)
    requires Tidy(st) && st.quote == Unquoted && !FinishCommand(st).invalid && FinishCommand(st).docs == []
    ensures RunOn("\n" + b, st, Plain) == RunOn(b, START.(commands := FinishCommand(st).commands), Plain)
  {
    CleanAfterFinish(st);
    assert ("\n" + b)[1..] == b;
  }

  /**
   * Parsing composes over lines: if `a` parses and leaves no here-document open, then `a`, a
   * newline and `b` parse to the commands of `a` followed by those of `b`, and fail when `b` fails.
   */
  lemma ParseComposes(a: string, b: string)
    requires Closed(a)
    ensures Parse(a + "\n" + b) == Then(Parse(a).value, Parse(b))
  {
    var run := RunOn(a, START, Plain);
    var t := "\n" + b;
    assert a + "\n" + b == a + t;
    RunExtends(a, START, Plain, t);
    RunIsTidy(a, START, Plain);
    ParseAfter(Parse(a).value, b);
    if run.tail == OnDelimiter {
      RunOnDelimiter(a, START, Plain);
      assert t[1..] == b;
    } else {
      NewlineIsClean(b, run.st);
    }
  }

  // ---- here-documents ----

  /** A character that is an ordinary part of a word wherever it stands. */
  predicate PlainChar(c: char) {
    !Reserved(c) && c != '#' && c != '$'
  }

  predicate PlainWord(w: string) {
    w != "" && forall i :: 0 <= i < |w| ==> PlainChar(w[i])
  }

  lemma {:induction false} RunPlainWord(w: string, rest: string, st: State, tail: Tail)
    requires st.quote == Unquoted && (forall i :: 0 <= i < |w| ==> PlainChar(w[i]))
    requires rest != ""
    ensures RunOn(w + rest, st, tail)
            == RunOn(rest, st.(word := st.word + w, started := st.started || w != ""), Plain)
    decreases |w|
  {
    if w == "" {
      assert w + rest == rest && st.word + w == st.word;
    } else {
      var s := w + rest;
      assert PlainChar(s[0]);
      var st' := st.(word := st.word + [w[0]], started := true);
      assert StepOn(s, st) == Go(1, st', Plain);
      assert s[1..] == w[1..] + rest;
      RunPlainWord(w[1..], rest, st', Plain);
      assert st'.word + w[1..] == st.word + w;
    }
  }

  /** Lines, each with its newline. */
  function Lines(lines: seq<string>): string {
    if lines == [] then "" else lines[0] + "\n" + Lines(lines[1..])
  }

  /** Over a line up to its newline. */
  lemma {:induction false} SkipOverLine(line: string, more: string, held: string, closes: string -> bool)
    requires '\n' !in line
    ensures SkipTo(line + ("\n" + more), held, closes)
            == if closes(held + line) then Past(|line| + 1, false) else Plus(|line| + 1, SkipTo(more, "", closes))
    decreases |line|
  {
    var s := line + ("\n" + more);
    if line == "" {
      assert s[0] == '\n' && s[1..] == more && held + line == held;
    } else {
      assert s[0] == line[0] && s[1..] == line[1..] + ("\n" + more);
      SkipOverLine(line[1..], more, held + [line[0]], closes);
      assert held + [line[0]] + line[1..] == held + line;
    }
  }

  lemma SkipLine(line: string, more: string, closes: string -> bool)
    requires '\n' !in line
    ensures SkipTo(line + ("\n" + more), "", closes)
            == if closes(line) then Past(|line| + 1, false) else Plus(|line| + 1, SkipTo(more, "", closes))
  {
    SkipOverLine(line, more, "", closes);
    assert "" + line == line;
  }

  /** A skip passes over every line that is not accepted. */
  lemma {:induction false} SkipLines(lines: seq<string>, closes: string -> bool, close: string, rest: string)
    requires forall l :: l in lines ==> '\n' !in l && !closes(l)
    requires '\n' !in close && closes(close)
    ensures SkipTo(Lines(lines) + (close + ("\n" + rest)), "", closes) == Past(|Lines(lines)| + |close| + 1, false)
    decreases |lines|
  {
    var last := close + ("\n" + rest);
    if lines == [] {
      assert Lines(lines) + last == last;
      SkipLine(close, rest, closes);
    } else {
      var l, more := lines[0], Lines(lines[1..]) + last;
      assert Lines(lines) + last == l + ("\n" + more);
      SkipLine(l, more, closes);
      SkipLines(lines[1..], closes, close, rest);
    }
  }

  /** `<<D` or `<<-D` after a space, from a state between words. */
  function Operator(stripTabs: bool): string {
    if stripTabs then " <<-" else " <<"
  }

  lemma RunOperator(st: State, stripTabs: bool, d: string, rest: string)
    requires Tidy(st) && st.quote == Unquoted && !FinishCommand(st).invalid
    requires PlainWord(d) && (!stripTabs ==> d[0] != '-')
    ensures var w := FinishWord(st);
            RunOn(Operator(stripTabs) + (d + rest), st, Plain)
            == RunOn(d + rest, w.(pending := Some(Redirection(Some(stripTabs)))), Plain)
  {
    var w := FinishWord(st);
    var text := d + rest;
    var op := if stripTabs then "<<-" else "<<";
    var s := Operator(stripTabs) + text;
    assert s[0] == ' ' && s[1..] == op + text;
    assert !w.invalid && w.pending.None?;
    assert StepOn(s, st) == Go(1, w, Plain);
    var u := op + text;
    assert u[0] == '<' && u[1] == '<' && u[2] == (if stripTabs then '-' else d[0]);
    assert PlainChar(d[0]);
    assert !w.started;
    assert BeginRedirection(w, Redirection(Some(stripTabs)), false)
        == w.(pending := Some(Redirection(Some(stripTabs))));
    assert u[|op|..] == text;
  }

  lemma NewlineSkips(body: string, st: State, n: nat)
    requires !FinishCommand(st).invalid && FinishCommand(st).docs != []
    requires SkipDocuments(body, FinishCommand(st).docs) == Past(n, false)
    ensures Newline("\n" + body, st) == Go(1 + n, FinishCommand(st).(docs := []), Plain)
  {
    var s := "\n" + body;
    assert s[1..] == body;
  }

  /** A newline whose line opened documents: they are skipped and the state is clean again. */
  lemma SkipAtNewline(body: string, st: State, n: nat)
    requires st.quote == Unquoted && !FinishCommand(st).invalid && FinishCommand(st).docs != []
    requires SkipDocuments(body, FinishCommand(st).docs) == Past(n, false)
    ensures RunOn("\n" + body, st, Plain) == RunOn(body[n..], FinishCommand(st).(docs := []), Plain)
  {
    var s := "\n" + body;
    NewlineSkips(body, st, n);
    assert StepOn(s, st) == Newline(s, st);
    assert s[1 + n..] == body[n..];
  }

  lemma OpenedDocument(w: State, d: string, stripTabs: bool)
    requires Tidy(w) && w.quote == Unquoted && !w.started && w.pending.None? && !w.invalid && w.docs == [] && d != ""
    ensures var st := w.(pending := Some(Redirection(Some(stripTabs))), word := d, started := true);
            FinishCommand(st) == START.(commands := FinishCommand(w).commands, docs := [HereDoc(d, stripTabs)])
  {
  }

  lemma RunBody(w: State, d: string, stripTabs: bool, lines: seq<string>, close: string, rest: string)
    requires Tidy(w) && w.quote == Unquoted && !w.started && w.pending.None? && !w.invalid && w.docs == [] && d != ""
    requires var doc := HereDoc(d, stripTabs);
             && (forall l :: l in lines ==> '\n' !in l && !Closes(l, doc))
             && '\n' !in close && Closes(close, doc)
    ensures var st := w.(pending := Some(Redirection(Some(stripTabs))), word := d, started := true);
            RunOn("\n" + (Lines(lines) + (close + ("\n" + rest))), st, Plain)
            == RunOn(rest, START.(commands := FinishCommand(w).commands), Plain)
  {
    var doc := HereDoc(d, stripTabs);
    var st := w.(pending := Some(Redirection(Some(stripTabs))), word := d, started := true);
    var body := Lines(lines) + (close + ("\n" + rest));
    var n := |Lines(lines)| + |close| + 1;
    OpenedDocument(w, d, stripTabs);
    SkipLines(lines, Closing(doc), close, rest);
    OnlyDocument(body, [doc]);
    assert body[n..] == rest;
    SkipAtNewline(body, st, n);
  }

  /**
   * Here-document bodies never contribute words. If `a` parses, leaves no here-document open, and
   * ends neither in a comment nor on a closing line without a newline, then appending ` <<D`, any
   * lines that do not close it, a closing line and `rest` gives the commands of `a` followed by
   * those of `rest`.
   */
  lemma BodiesContributeNothing(
    a: string, stripTabs: bool, d: string, lines: seq<string>, close: string, rest: string)
    requires Closed(a) && RunOn(a, START, Plain).tail == Plain
    requires PlainWord(d) && (!stripTabs ==> d[0] != '-')
    requires var doc := HereDoc(d, stripTabs);
             && (forall l :: l in lines ==> '\n' !in l && !Closes(l, doc))
             && '\n' !in close && Closes(close, doc)
    ensures Parse(a + (Operator(stripTabs) + (d + ("\n" + (Lines(lines) + (close + ("\n" + rest)))))))
            == Then(Parse(a).value, Parse(rest))
  {
    var st := RunOn(a, START, Plain).st;
    var document := Operator(stripTabs) + (d + ("\n" + (Lines(lines) + (close + ("\n" + rest)))));
    RunIsTidy(a, START, Plain);
    RunExtends(a, START, Plain, document);
    RunDocument(st, stripTabs, d, lines, close, rest, document);
    ParseAfter(Parse(a).value, rest);
  }

  /** A whole document behind a state that leaves none open. */
  lemma RunDocument(
    st: State, stripTabs: bool, d: string, lines: seq<string>, close: string, rest: string, document: string)
    requires Tidy(st) && st.quote == Unquoted && !FinishCommand(st).invalid && FinishCommand(st).docs == []
    requires PlainWord(d) && (!stripTabs ==> d[0] != '-')
    requires var doc := HereDoc(d, stripTabs);
             && (forall l :: l in lines ==> '\n' !in l && !Closes(l, doc))
             && '\n' !in close && Closes(close, doc)
    requires document == Operator(stripTabs) + (d + ("\n" + (Lines(lines) + (close + ("\n" + rest)))))
    ensures RunOn(document, st, Plain) == RunOn(rest, START.(commands := FinishCommand(st).commands), Plain)
  {
    var body := "\n" + (Lines(lines) + (close + ("\n" + rest)));
    FinishIsTidy(st);
    RunOperator(st, stripTabs, d, body);
    var w := FinishWord(st);
    var waiting := w.(pending := Some(Redirection(Some(stripTabs))));
    RunPlainWord(d, body, waiting, Plain);
    assert waiting.word + d == d;
    RunBody(w, d, stripTabs, lines, close, rest);
    assert FinishCommand(w).commands == FinishCommand(st).commands;
  }

  /** The plain word closes its own document, so an ordinary closing line is just the word again. */
  lemma PlainWordCloses(d: string, stripTabs: bool)
    requires PlainWord(d)
    ensures Closes(d, HereDoc(d, stripTabs)) && '\n' !in d
  {
    assert PlainChar(d[0]) && PlainChar(d[|d| - 1]);
  }
}
