/**
 * The conservative shell parser (src/activity/curl-request-urls.ts:322-510): a character automaton
 * over the rest of the source. ShellParser.dfy holds the index loop that refines it.
 */
module Shell {
  import opened Common
  import opened Decimal

  datatype Quote = Unquoted | Single | Double

  datatype HereDoc = HereDoc(delimiter: string, stripTabs: bool)

  /** A redirection that still lacks its target; `heredoc` holds `stripTabs`. */
  datatype Redirection = Redirection(heredoc: Option<bool>)

  datatype Command = Command(words: seq<string>, output: bool)

  datatype State = State(
    commands: seq<Command>,
    words: seq<string>,
    word: string,
    started: bool,
    quote: Quote,
    pending: Option<Redirection>,
    docs: seq<HereDoc>,
    output: bool,
    invalid: bool)

  const START := State([], [], "", false, Unquoted, None, [], false, false)

  function FinishWord(st: State): State {
    if !st.started then st
    else
      var closed := st.(word := "", started := false);
      match st.pending
      case None => closed.(words := st.words + [st.word])
      case Some(redirection) =>
        if st.word == "" then closed.(invalid := true)
        else
          closed.(pending := None,
                  docs := if redirection.heredoc.Some? then st.docs + [HereDoc(st.word, redirection.heredoc.value)]
                          else st.docs)
  }

  function FinishCommand(st: State): State {
    var done := FinishWord(st);
    if done.pending.Some? then done.(invalid := true)
    else
      done.(commands := if done.words != [] || done.output then done.commands + [Command(done.words, done.output)]
                        else done.commands,
            words := [], output := false)
  }

  function BeginRedirection(st: State, redirection: Redirection, output: bool): State {
    if st.pending.Some? then st.(invalid := true)
    else
      var done := if st.started && st.word != "" && AllDigits(st.word) then st.(word := "", started := false)
                  else FinishWord(st);
      done.(pending := Some(redirection), output := done.output || output)
  }

  // ---- here-documents ----

  /** The length of the first line of `s`, without its newline. */
  function LineLength(s: string): (n: nat)
    ensures n <= |s| && (n < |s| ==> s[n] == '\n')
  {
    if s == "" || s[0] == '\n' then 0 else 1 + LineLength(s[1..])
  }

  function StripTabs(line: string): string {
    if line != "" && line[0] == '\t' then StripTabs(line[1..]) else line
  }

  function StripReturn(line: string): string {
    if line != "" && line[|line| - 1] == '\r' then line[..|line| - 1] else line
  }

  /** Whether a line closes a here-document. */
  predicate Closes(line: string, doc: HereDoc) {
    (if doc.stripTabs then StripTabs(StripReturn(line)) else StripReturn(line)) == doc.delimiter
  }

  function Closing(doc: HereDoc): string -> bool {
    (line: string) => Closes(line, doc)
  }

  /**
   * How many characters lead past the first line that is accepted, and whether that line was still open,
   * without a newline, at the end of the source.
   */
  datatype Skip = Unclosed | Past(n: nat, open: bool)

  function Plus(n: nat, skip: Skip): Skip {
    if skip.Unclosed? then Unclosed else skip.(n := n + skip.n)
  }

  /** Reads on through `s`, `line` being what the current line holds already. */
  function SkipTo(s: string, line: string, closes: string -> bool): (r: Skip)
    ensures r.Past? ==> r.n <= |s|
    decreases |s|
  {
    if s == "" then if closes(line) then Past(0, true) else Unclosed
    else if s[0] != '\n' then Plus(1, SkipTo(s[1..], line + [s[0]], closes))
    else if closes(line) then Past(1, false)
    else Plus(1, SkipTo(s[1..], "", closes))
  }

  /** `consumeHereDocuments`. */
  function SkipDocuments(s: string, docs: seq<HereDoc>): (r: Skip)
    ensures r.Past? ==> r.n <= |s|
    decreases |docs|
  {
    if docs == [] then Past(0, false)
    else
      match SkipTo(s, "", Closing(docs[0]))
      case Unclosed => Unclosed
      case Past(n, open) => if |docs| == 1 then Past(n, open) else Plus(n, SkipDocuments(s[n..], docs[1..]))
  }

  // ---- one step ----

  /** How the end of the source was reached: by a character, inside a comment, or on a closing line. */
  datatype Tail = Plain | InComment | OnDelimiter

  datatype Step = Stop | Go(n: nat, st: State, tail: Tail)

  function At(s: string, i: nat): Option<char> {
    if i < |s| then Some(s[i]) else None
  }

  function Quoted(s: string, st: State): Step
    requires s != "" && st.quote != Unquoted
  {
    var c, next := s[0], At(s, 1);
    if st.quote == Single then
      if c == '\'' then Go(1, st.(quote := Unquoted), Plain) else Go(1, st.(word := st.word + [c]), Plain)
    else if c == '"' then Go(1, st.(quote := Unquoted), Plain)
    else if c == '`' || (c == '$' && next == Some('(')) then Stop
    else if c == '\\' && next.Some? then
      Go(2, if next.value == '\n' then st else st.(word := st.word + [next.value]), Plain)
    else Go(1, st.(word := st.word + [c]), Plain)
  }

  function Redirect(s: string, st: State): Step
    requires s != "" && (s[0] == '<' || s[0] == '>')
  {
    var c, next := s[0], At(s, 1);
    if c == '<' && next == Some('<') then
      if At(s, 2) == Some('<') then Stop
      else
        var stripTabs := At(s, 2) == Some('-');
        Go(if stripTabs then 3 else 2, BeginRedirection(st, Redirection(Some(stripTabs)), false), Plain)
    else
      var output := c == '>' || next == Some('>');
      var double := next == Some(c) || next == Some('&') || next == Some('|') || (c == '<' && next == Some('>'));
      Go(if double then 2 else 1, BeginRedirection(st, Redirection(None), output), Plain)
  }

  function Newline(s: string, st: State): Step
    requires s != "" && s[0] == '\n'
  {
    var done := FinishCommand(st);
    if done.invalid then Stop
    else if done.docs == [] then Go(1, done, Plain)
    else
      match SkipDocuments(s[1..], done.docs)
      case Unclosed => Stop
      case Past(n, open) => Go(1 + n, done.(docs := []), if open then OnDelimiter else Plain)
  }

  predicate Reserved(c: char) {
    c in {'`', '\\', '\'', '"', '<', '>', '\n', ';', '|', '&', '(', ')', '{', '}'} || IsSpace(c)
  }

  function StepOn(s: string, st: State): Step
    requires s != ""
  {
    var c, next := s[0], At(s, 1);
    if st.quote != Unquoted then Quoted(s, st)
    else if c == '`' || (c == '$' && next == Some('(')) then Stop
    else if c == '\\' then
      if next.None? then Stop
      else if next.value == '\n' then Go(2, st, Plain)
      else Go(2, st.(started := true, word := st.word + [next.value]), Plain)
    else if c == '\'' then Go(1, st.(quote := Single, started := true), Plain)
    else if c == '"' then Go(1, st.(quote := Double, started := true), Plain)
    else if c == '#' && !st.started then
      var n := LineLength(s);
      Go(n, st, if n == |s| then InComment else Plain)
    else if c == '&' && next == Some('>') then
      Go(if At(s, 2) == Some('>') then 3 else 2, BeginRedirection(st, Redirection(None), true), Plain)
    else if c == '<' || c == '>' then Redirect(s, st)
    else if c == '\n' then Newline(s, st)
    else if c == ';' || c == '|' || c == '&' then
      var done := FinishCommand(st);
      if done.invalid then Stop
      else Go(if next == Some(c) && c != ';' then 2 else 1, done, Plain)
    else if IsSpace(c) then
      var done := FinishWord(st);
      if done.invalid then Stop else Go(1, done, Plain)
    else if c == '(' || c == ')' || c == '{' || c == '}' then Stop
    else Go(1, st.(started := true, word := st.word + [c]), Plain)
  }

  lemma StepMoves(s: string, st: State)
    requires s != ""
    ensures StepOn(s, st).Go? ==> 1 <= StepOn(s, st).n <= |s|
  {
  }

  // ---- whole sources ----

  datatype Run = Failed | Ended(st: State, tail: Tail)

  function RunOn(s: string, st: State, tail: Tail): Run
    decreases |s|
  {
    if s == "" then Ended(st, tail)
    else
      StepMoves(s, st);
      match StepOn(s, st)
      case Stop => Failed
      case Go(n, st', tail') => RunOn(s[n..], st', tail')
  }

  function Conclude(run: Run): Option<seq<Command>> {
    match run
    case Failed => None
    case Ended(st, _) =>
      var done := FinishCommand(st);
      if st.quote != Unquoted || done.invalid then None else Some(done.commands)
  }

  /** `parseShellCommands`. */
  function Parse(source: string): Option<seq<Command>> {
    Conclude(RunOn(source, START, Plain))
  }
}
