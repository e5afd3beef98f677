/** Printing commands in single quotes and parsing them again. */
module ShellRoundTrip {
  import opened Common
  import opened Decimal
  import opened Shell
  import opened ShellTheorems

  /** The inside of a single-quoted word: each quote is closed, escaped and reopened. */
  function Escape(w: string): string {
    if w == "" then ""
    else (if w[0] == '\'' then "'\\''" else [w[0]]) + Escape(w[1..])
  }

  function QuoteWord(w: string): string {
    "'" + (Escape(w) + "'")
  }

  /** Words separated by single spaces. */
  function PrintWords(words: seq<string>): string {
    if words == [] then ""
    else if |words| == 1 then QuoteWord(words[0])
    else QuoteWord(words[0]) + (" " + PrintWords(words[1..]))
  }

  /** Commands separated by newlines. */
  function PrintCommands(commands: seq<seq<string>>): string {
    if commands == [] then ""
    else if |commands| == 1 then PrintWords(commands[0])
    else PrintWords(commands[0]) + "\n" + PrintCommands(commands[1..])
  }

  function AsCommands(commands: seq<seq<string>>): seq<Command> {
    if commands == [] then [] else [Command(commands[0], false)] + AsCommands(commands[1..])
  }

  lemma OneStep(s: string, st: State, n: nat, rest: string, st': State)
    requires s != "" && 1 <= n <= |s| && s[n..] == rest && StepOn(s, st) == Go(n, st', Plain)
    ensures RunOn(s, st, Plain) == RunOn(rest, st', Plain)
  {
  }

  /** One ordinary character inside single quotes. */
  lemma QuotedChar(c: char, rest: string, st: State)
    requires st.quote == Single && c != '\''
    ensures RunOn([c] + rest, st, Plain) == RunOn(rest, st.(word := st.word + [c]), Plain)
  {
    assert ([c] + rest)[1..] == rest;
  }

  /** A quote: three steps close, escape and reopen. */
  lemma QuotedQuote(rest: string, st: State)
    requires st.quote == Single && st.started
    ensures RunOn("'\\''" + rest, st, Plain) == RunOn(rest, st.(word := st.word + ['\'']), Plain)
  {
    var s := "'\\''" + rest;
    var closed := st.(quote := Unquoted);
    var s1 := s[1..];
    OneStep(s, st, 1, s1, closed);
    assert s1[0] == '\\' && At(s1, 1) == Some('\'');
    var escaped := closed.(word := st.word + ['\'']);
    var s2 := s1[2..];
    OneStep(s1, closed, 2, s2, escaped);
    assert s2[0] == '\'' && s2[1..] == rest;
    OneStep(s2, escaped, 1, rest, escaped.(quote := Single));
  }

  /** A way to read on; the automaton's own is `Automaton()`. */
  type Reader = (string, State) -> Run

  function Automaton(): Reader {
    (s: string, st: State) => RunOn(s, st, Plain)
  }

  ghost predicate ReadsChar(run: Reader, c: char, rest: string, st: State) {
    st.quote == Single && c != '\'' ==> run([c] + rest, st) == run(rest, st.(word := st.word + [c]))
  }

  ghost predicate ReadsQuote(run: Reader, rest: string, st: State) {
    st.quote == Single && st.started ==> run("'\\''" + rest, st) == run(rest, st.(word := st.word + ['\'']))
  }

  ghost predicate ReadsClose(run: Reader, rest: string, st: State) {
    st.quote == Single ==> run("'" + rest, st) == run(rest, st.(quote := Unquoted))
  }

  /** What a reader does inside single quotes. */
  ghost predicate ReadsQuoted(run: Reader) {
    && (forall c, rest, st :: ReadsChar(run, c, rest, st))
    && (forall rest, st :: ReadsQuote(run, rest, st))
    && (forall rest, st :: ReadsClose(run, rest, st))
  }

  lemma AutomatonReadsQuoted()
    ensures ReadsQuoted(Automaton())
  {
    var run := Automaton();
    forall c, rest, st ensures ReadsChar(run, c, rest, st) {
      if st.quote == Single && c != '\'' {
        QuotedChar(c, rest, st);
      }
    }
    forall rest, st ensures ReadsQuote(run, rest, st) {
      if st.quote == Single && st.started {
        QuotedQuote(rest, st);
      }
    }
    forall rest, st ensures ReadsClose(run, rest, st) {
      assert ("'" + rest)[1..] == rest;
      if st.quote == Single {
        OneStep("'" + rest, st, 1, rest, st.(quote := Unquoted));
      }
    }
  }

  lemma {:induction false} ReadEscaped(run: Reader, w: string, rest: string, st: State)
    requires ReadsQuoted(run) && st.quote == Single && st.started
    ensures run(Escape(w) + ("'" + rest), st) == run(rest, st.(word := st.word + w, quote := Unquoted))
    decreases |w|
  {
    var close := "'" + rest;
    if w == "" {
      assert Escape(w) + close == close;
      assert st.word + w == st.word;
      assert ReadsClose(run, rest, st);
    } else {
      var more := Escape(w[1..]) + close;
      var st' := st.(word := st.word + [w[0]]);
      if w[0] == '\'' {
        assert Escape(w) + close == "'\\''" + more;
        assert ReadsQuote(run, more, st);
      } else {
        assert Escape(w) + close == [w[0]] + more;
        assert ReadsChar(run, w[0], more, st);
      }
      ReadEscaped(run, w[1..], rest, st');
      assert st'.word + w[1..] == st.word + w;
    }
  }

  lemma RunEscaped(w: string, rest: string, st: State)
    requires st.quote == Single && st.started
    ensures RunOn(Escape(w) + ("'" + rest), st, Plain)
            == RunOn(rest, st.(word := st.word + w, quote := Unquoted), Plain)
  {
    AutomatonReadsQuoted();
    ReadEscaped(Automaton(), w, rest, st);
  }

  /** A printed word, from a state between words, leaves exactly its characters in the word buffer. */
  lemma RunQuotedWord(w: string, rest: string, st: State)
    requires st.quote == Unquoted && !st.started && st.word == ""
    ensures RunOn(QuoteWord(w) + rest, st, Plain) == RunOn(rest, st.(word := w, started := true), Plain)
  {
    var s := QuoteWord(w) + rest;
    var st' := st.(quote := Single, started := true);
    assert StepOn(s, st) == Go(1, st', Plain);
    assert s[1..] == Escape(w) + ("'" + rest);
    RunEscaped(w, rest, st');
    assert "" + w == w;
  }

  /** The state after the words of one command, the last of them not yet finished. */
  function AfterWords(st: State, words: seq<string>): State
    requires words != []
  {
    st.(words := st.words + words[..|words| - 1], word := words[|words| - 1], started := true)
  }

  lemma SpaceFinishesWord(rest: string, st: State)
    requires st.quote == Unquoted && st.started && st.pending.None? && !st.invalid
    ensures RunOn(" " + rest, st, Plain)
            == RunOn(rest, st.(word := "", started := false, words := st.words + [st.word]), Plain)
  {
    var s := " " + rest;
    assert s[1..] == rest;
    assert StepOn(s, st) == Go(1, FinishWord(st), Plain);
  }

  /** A state between words of one command. */
  predicate Between(st: State) {
    st.quote == Unquoted && !st.started && st.word == "" && st.pending.None? && !st.invalid
  }

  lemma RunWordAndSpace(w: string, more: string, st: State)
    requires Between(st)
    ensures RunOn(QuoteWord(w) + (" " + more), st, Plain) == RunOn(more, st.(words := st.words + [w]), Plain)
  {
    RunQuotedWord(w, " " + more, st);
    SpaceFinishesWord(more, st.(word := w, started := true));
  }

  lemma AfterMoreWords(st: State, words: seq<string>)
    requires |words| > 1
    ensures AfterWords(st.(words := st.words + [words[0]]), words[1..]) == AfterWords(st, words)
  {
    assert words[1..][..|words| - 2] == words[1..|words| - 1];
    assert words[..|words| - 1] == [words[0]] + words[1..|words| - 1];
  }

  ghost predicate ReadsWord(run: Reader, w: string, rest: string, st: State) {
    Between(st) ==> run(QuoteWord(w) + rest, st) == run(rest, st.(word := w, started := true))
  }

  ghost predicate ReadsWordAndSpace(run: Reader, w: string, more: string, st: State) {
    Between(st) ==> run(QuoteWord(w) + (" " + more), st) == run(more, st.(words := st.words + [w]))
  }

  /** What a reader does with printed words. */
  ghost predicate ReadsWords(run: Reader) {
    && (forall w, rest, st :: ReadsWord(run, w, rest, st))
    && (forall w, more, st :: ReadsWordAndSpace(run, w, more, st))
  }

  lemma AutomatonReadsWords()
    ensures ReadsWords(Automaton())
  {
    var run := Automaton();
    forall w, more, st ensures ReadsWordAndSpace(run, w, more, st) {
      if Between(st) {
        RunWordAndSpace(w, more, st);
      }
    }
    forall w, rest, st ensures ReadsWord(run, w, rest, st) {
      if Between(st) {
        RunQuotedWord(w, rest, st);
      }
    }
  }

  lemma {:induction false} ReadWords(run: Reader, words: seq<string>, rest: string, st: State)
    requires ReadsWords(run) && words != [] && Between(st)
    ensures run(PrintWords(words) + rest, st) == run(rest, AfterWords(st, words))
    decreases |words|
  {
    if |words| == 1 {
      assert st.words + words[..0] == st.words;
      assert ReadsWord(run, words[0], rest, st);
    } else {
      var more := PrintWords(words[1..]) + rest;
      var st' := st.(words := st.words + [words[0]]);
      assert PrintWords(words) + rest == QuoteWord(words[0]) + (" " + more);
      assert ReadsWordAndSpace(run, words[0], more, st);
      ReadWords(run, words[1..], rest, st');
      AfterMoreWords(st, words);
    }
  }

  lemma RunWords(words: seq<string>, rest: string, st: State)
    requires words != [] && Between(st)
    ensures RunOn(PrintWords(words) + rest, st, Plain) == RunOn(rest, AfterWords(st, words), Plain)
  {
    AutomatonReadsWords();
    ReadWords(Automaton(), words, rest, st);
  }

  lemma WordsFinish(words: seq<string>)
    requires words != []
    ensures FinishCommand(AfterWords(START, words)) == START.(commands := [Command(words, false)])
  {
    var st := AfterWords(START, words);
    assert st.words + [st.word] == words;
  }

  lemma ParsePrintedWords(words: seq<string>)
    requires words != []
    ensures Parse(PrintWords(words)) == Some([Command(words, false)]) && Closed(PrintWords(words))
  {
    RunWords(words, "", START);
    assert PrintWords(words) + "" == PrintWords(words);
    WordsFinish(words);
  }

  /**
   * For any commands of at least one word each, over arbitrary characters, printing and parsing
   * gives back exactly those words, with no output redirection.
   */
  lemma {:induction false} PrintedCommandsReadBack(commands: seq<seq<string>>)
    requires forall i :: 0 <= i < |commands| ==> commands[i] != []
    ensures Parse(PrintCommands(commands)) == Some(AsCommands(commands))
    decreases |commands|
  {
    if commands == [] {
      assert FinishCommand(START) == START;
    } else {
      ParsePrintedWords(commands[0]);
      if |commands| > 1 {
        ParseComposes(PrintWords(commands[0]), PrintCommands(commands[1..]));
        PrintedCommandsReadBack(commands[1..]);
      } else {
        assert AsCommands(commands) == [Command(commands[0], false)];
      }
    }
  }

  // ---- why a closing line must end in a newline before more is appended ----

  const WAITING := START.(pending := Some(Redirection(Some(false))))
  const NAMED := WAITING.(word := "E", started := true)

  /** `<<E`, a newline and a body: only the skip of the body is left. */
  lemma RunNamed(body: string)
    ensures RunOn("<<E\n" + body, START, Plain) == RunOn("\n" + body, NAMED, Plain)
  {
    var s := "<<E\n" + body;
    var named := "E" + ("\n" + body);
    assert s[2] == 'E' && s[2..] == named;
    OneStep(s, START, 2, named, WAITING);
    RunPlainWord("E", "\n" + body, WAITING, Plain);
    assert WAITING.word + "E" == "E";
  }

  lemma SkipE()
    ensures SkipTo("E", "", Closing(HereDoc("E", false))) == Past(1, true)
  {
    assert "E"[1..] == "" && "" + ['E'] == "E";
  }

  lemma ClosedWithoutNewline()
    ensures Closed("<<E\nE")
  {
    var doc, s := HereDoc("E", false), "\n" + "E";
    RunNamed("E");
    assert "<<E\n" + "E" == "<<E\nE";
    OpenedDocument(START, "E", false);
    SkipE();
    OnlyDocument("E", [doc]);
    assert s[1..] == "E";
    assert StepOn(s, NAMED) == Go(2, START, OnDelimiter);
    assert s[2..] == "";
  }

  lemma SkipFails()
    ensures SkipTo("E <<D\nD\n", "", Closing(HereDoc("E", false))).Unclosed?
  {
    var doc := HereDoc("E", false);
    assert "E <<D\nD\n" == "E <<D" + ("\n" + "D\n");
    SkipLine("E <<D", "D\n", Closing(doc));
    assert "D\n" == "D" + ("\n" + "");
    SkipLine("D", "", Closing(doc));
    EmptyLineClosesNothing(doc);
  }

  lemma NewlineStops(body: string, st: State)
    requires st.quote == Unquoted && SkipDocuments(body, FinishCommand(st).docs).Unclosed?
    ensures RunOn("\n" + body, st, Plain).Failed?
  {
    var s := "\n" + body;
    assert s[1..] == body;
    assert StepOn(s, st) == Newline(s, st);
  }

  /** Text behind a closing line that lacks its newline spoils it: the whole source no longer parses. */
  lemma TextBehindClosingLine()
    ensures Closed("<<E\nE") && Parse("<<E\nE" + " <<D\nD\n").None?
  {
    ClosedWithoutNewline();
    var doc, body := HereDoc("E", false), "E <<D\nD\n";
    RunNamed(body);
    assert "<<E\nE" + " <<D\nD\n" == "<<E\n" + body;
    OpenedDocument(START, "E", false);
    SkipFails();
    OnlyDocument(body, [doc]);
    NewlineStops(body, NAMED);
  }
}
