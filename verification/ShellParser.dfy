/**
 * The parser as the source writes it (src/activity/curl-request-urls.ts:322-510): one loop over an
 * index that updates the word, the words, the quote and the pending redirection in place. Each part
 * is proved against the automaton of module Shell.
 */
module ShellParser {
  import opened Common
  import opened Decimal
  import opened Shell

  /** `source.indexOf('\n', from)`, with the length of the source for -1. */
  method LineEnd(source: string, from: nat) returns (end: nat)
    requires from <= |source|
    ensures end == from + LineLength(source[from..])
  {
    end := from;
    while end < |source| && source[end] != '\n'
      invariant from <= end <= |source|
      invariant from + LineLength(source[from..]) == end + LineLength(source[end..])
    {
      assert source[end..][1..] == source[end + 1..];
      end := end + 1;
    }
  }

  /** A skip from `cursor` on, as a position in the source. */
  ghost function Behind(source: string, cursor: nat, closes: string -> bool): Option<nat>
    requires cursor <= |source|
  {
    Position(cursor, SkipTo(source[cursor..], "", closes))
  }

  function Position(cursor: nat, skip: Skip): Option<nat> {
    if skip.Unclosed? then None else Some(cursor + skip.n)
  }

  /** Over the characters of one line. */
  lemma {:induction false} OverLine(line: string, tail: string, held: string, closes: string -> bool)
    requires '\n' !in line
    ensures SkipTo(line + tail, held, closes) == Plus(|line|, SkipTo(tail, held + line, closes))
    decreases |line|
  {
    if line == "" {
      assert line + tail == tail && held + line == held;
    } else {
      assert (line + tail)[1..] == line[1..] + tail;
      OverLine(line[1..], tail, held + [line[0]], closes);
      assert held + [line[0]] + line[1..] == held + line;
    }
  }

  lemma {:induction false} NoNewlineInside(s: string)
    ensures '\n' !in s[..LineLength(s)]
  {
    if s != "" && s[0] != '\n' {
      NoNewlineInside(s[1..]);
      assert s[..LineLength(s)] == [s[0]] + s[1..][..LineLength(s[1..])];
    }
  }

  lemma BehindLine(source: string, cursor: nat, end: nat, closes: string -> bool)
    requires cursor <= |source| && end == cursor + LineLength(source[cursor..])
    ensures Behind(source, cursor, closes)
            == if closes(source[cursor..end]) then Some(if end < |source| then end + 1 else end)
               else if end == |source| then None
               else Behind(source, end + 1, closes)
  {
    var rest := source[cursor..];
    var line, tail := source[cursor..end], source[end..];
    assert rest[..end - cursor] == line;
    assert rest == line + tail;
    NoNewlineInside(rest);
    OverLine(line, tail, "", closes);
    assert "" + line == line;
    if end < |source| {
      assert tail[0] == '\n' && tail[1..] == source[end + 1..];
    }
  }

  /** The inner loop of `consumeHereDocuments`. */
  method ConsumeHereDocument(source: string, start: nat, doc: HereDoc) returns (found: bool, cursor: nat)
    requires start <= |source|
    ensures Behind(source, start, Closing(doc)) == if found then Some(cursor) else None
  {
    found, cursor := false, start;
    var more := true;
    while more && !found
      invariant start <= cursor <= |source|
      invariant Behind(source, start, Closing(doc))
                == if found then Some(cursor) else if more then Behind(source, cursor, Closing(doc)) else None
      decreases more && !found, |source| - cursor
    {
      var end := LineEnd(source, cursor);
      BehindLine(source, cursor, end, Closing(doc));
      var line := StripReturn(source[cursor..end]);
      if doc.stripTabs {
        line := StripTabs(line);
      }
      assert Closing(doc)(source[cursor..end]) == (line == doc.delimiter);
      more := end < |source|;
      cursor := if more then end + 1 else |source|;
      found := line == doc.delimiter;
    }
  }

  ghost function BehindAll(source: string, cursor: nat, docs: seq<HereDoc>): Option<nat>
    requires cursor <= |source|
  {
    Position(cursor, SkipDocuments(source[cursor..], docs))
  }

  lemma BehindFirst(source: string, cursor: nat, docs: seq<HereDoc>)
    requires cursor <= |source| && docs != []
    ensures match Behind(source, cursor, Closing(docs[0]))
            case None => BehindAll(source, cursor, docs).None?
            case Some(next) => next <= |source| && BehindAll(source, cursor, docs) == BehindAll(source, next, docs[1..])
  {
    var skip := SkipTo(source[cursor..], "", Closing(docs[0]));
    if skip.Past? {
      assert source[cursor..][skip.n..] == source[cursor + skip.n..];
    }
  }

  method ConsumeHereDocuments(source: string, start: nat, documents: seq<HereDoc>) returns (after: Option<nat>)
    requires start <= |source|
    ensures after == Position(start, SkipDocuments(source[start..], documents))
  {
    var cursor := start;
    assert documents[0..] == documents;
    for k := 0 to |documents|
      invariant start <= cursor <= |source|
      invariant BehindAll(source, start, documents) == BehindAll(source, cursor, documents[k..])
    {
      BehindFirst(source, cursor, documents[k..]);
      var found, next := ConsumeHereDocument(source, cursor, documents[k]);
      if !found {
        return None;
      }
      assert documents[k..][1..] == documents[k + 1..];
      cursor := next;
    }
    assert documents[|documents|..] == [];
    after := Some(cursor);
  }

  class Parser {
    var commands: seq<Command>
    var words: seq<string>
    var word: string
    var wordStarted: bool
    var quote: Quote
    var pendingRedirection: Option<Redirection>
    var hereDocuments: seq<HereDoc>
    var hasOutputRedirection: bool
    var invalid: bool

    function Now(): State
      reads this
    {
      State(commands, words, word, wordStarted, quote, pendingRedirection, hereDocuments, hasOutputRedirection, invalid)
    }

    constructor ()
      ensures Now() == START
    {
      commands, words, word, wordStarted := [], [], "", false;
      quote, pendingRedirection, hereDocuments := Unquoted, None, [];
      hasOutputRedirection, invalid := false, false;
    }

    method FinishWord()
      modifies this
      ensures Now() == Shell.FinishWord(old(Now()))
    {
      if !wordStarted {
        return;
      }
      var finished := word;
      word := "";
      wordStarted := false;
      if pendingRedirection.Some? {
        if finished == "" {
          invalid := true;
          return;
        }
        if pendingRedirection.value.heredoc.Some? {
          hereDocuments := hereDocuments + [HereDoc(finished, pendingRedirection.value.heredoc.value)];
        }
        pendingRedirection := None;
        return;
      }
      words := words + [finished];
    }

    method FinishCommand()
      modifies this
      ensures Now() == Shell.FinishCommand(old(Now()))
    {
      FinishWord();
      if pendingRedirection.Some? {
        invalid := true;
        return;
      }
      if |words| > 0 || hasOutputRedirection {
        commands := commands + [Command(words, hasOutputRedirection)];
      }
      words := [];
      hasOutputRedirection := false;
    }

    method BeginRedirection(redirection: Redirection, output: bool)
      modifies this
      ensures Now() == Shell.BeginRedirection(old(Now()), redirection, output)
    {
      if pendingRedirection.Some? {
        invalid := true;
        return;
      }
      if wordStarted && word != "" && AllDigits(word) {
        word := "";
        wordStarted := false;
      } else {
        FinishWord();
      }
      pendingRedirection := Some(redirection);
      if output {
        hasOutputRedirection := true;
      }
    }

    /** What one pass of the loop body did: it stopped, or it moved the index by the automaton's step. */
    predicate Took(step: Step, index: nat, stop: bool, last: nat)
      reads this
    {
      match step
      case Stop => stop
      case Go(n, st, _) => !stop && Now() == st && last + 1 == index + n
    }

    /** Inside quotes. `last` is the last character read. */
    method InQuotes(source: string, index: nat) returns (stop: bool, last: nat)
      requires index < |source| && quote != Unquoted
      modifies this
      ensures Took(Quoted(source[index..], old(Now())), index, stop, last)
    {
      var c, next := source[index], At(source, index + 1);
      assert next == At(source[index..], 1);
      stop, last := false, index;
      if quote == Single {
        if c == '\'' {
          quote := Unquoted;
        } else {
          word := word + [c];
        }
      } else if c == '"' {
        quote := Unquoted;
      } else if c == '`' || (c == '$' && next == Some('(')) {
        stop := true;
      } else if c == '\\' && next.Some? {
        if next.value != '\n' {
          word := word + [next.value];
        }
        last := index + 1;
      } else {
        word := word + [c];
      }
    }

    method OnAngle(source: string, index: nat) returns (stop: bool, last: nat)
      requires index < |source| && (source[index] == '<' || source[index] == '>')
      modifies this
      ensures Took(Redirect(source[index..], old(Now())), index, stop, last)
    {
      var c, next := source[index], At(source, index + 1);
      assert next == At(source[index..], 1) && At(source, index + 2) == At(source[index..], 2);
      stop, last := false, index;
      if c == '<' && next == Some('<') {
        if At(source, index + 2) == Some('<') {
          stop := true;
          return;
        }
        var stripTabs := At(source, index + 2) == Some('-');
        BeginRedirection(Redirection(Some(stripTabs)), false);
        last := index + if stripTabs then 2 else 1;
      } else {
        BeginRedirection(Redirection(None), c == '>' || next == Some('>'));
        if next == Some(c) || next == Some('&') || next == Some('|') || (c == '<' && next == Some('>')) {
          last := index + 1;
        }
      }
    }

    method OnNewline(source: string, index: nat) returns (stop: bool, last: nat)
      requires index < |source| && source[index] == '\n'
      modifies this
      ensures Took(Newline(source[index..], old(Now())), index, stop, last)
    {
      stop, last := false, index;
      FinishCommand();
      if invalid {
        stop := true;
      } else if |hereDocuments| > 0 {
        assert source[index..][1..] == source[index + 1..];
        var after := ConsumeHereDocuments(source, index + 1, hereDocuments);
        if after.None? {
          stop := true;
        } else {
          hereDocuments := [];
          last := after.value - 1;
        }
      }
    }

    /** The loop body. */
    method Read(source: string, index: nat) returns (stop: bool, last: nat)
      requires index < |source|
      modifies this
      ensures Took(StepOn(source[index..], old(Now())), index, stop, last)
    {
      var c, next := source[index], At(source, index + 1);
      assert next == At(source[index..], 1) && At(source, index + 2) == At(source[index..], 2);
      stop, last := false, index;
      if quote != Unquoted {
        stop, last := InQuotes(source, index);
      } else if c == '`' || (c == '$' && next == Some('(')) {
        stop := true;
      } else if c == '\\' {
        if next.None? {
          stop := true;
        } else {
          if next.value != '\n' {
            wordStarted := true;
            word := word + [next.value];
          }
          last := index + 1;
        }
      } else if c == '\'' || c == '"' {
        quote := if c == '\'' then Single else Double;
        wordStarted := true;
      } else if c == '#' && !wordStarted {
        assert source[index..][1..] == source[index + 1..];
        var newline := LineEnd(source, index + 1);
        last := newline - 1;
      } else if c == '&' && next == Some('>') {
        BeginRedirection(Redirection(None), true);
        last := index + if At(source, index + 2) == Some('>') then 2 else 1;
      } else if c == '<' || c == '>' {
        stop, last := OnAngle(source, index);
      } else if c == '\n' {
        stop, last := OnNewline(source, index);
      } else if c == ';' || c == '|' || c == '&' {
        FinishCommand();
        stop := invalid;
        if next == Some(c) && (c == '|' || c == '&') {
          last := index + 1;
        }
      } else if IsSpace(c) {
        FinishWord();
        stop := invalid;
      } else if c == '(' || c == ')' || c == '{' || c == '}' {
        stop := true;
      } else {
        wordStarted := true;
        word := word + [c];
      }
    }
  }

  method ParseShellCommands(source: string) returns (r: Option<seq<Command>>)
    ensures r == Parse(source)
  {
    var parser := new Parser();
    var index := 0;
    ghost var tail := Plain;
    assert source[0..] == source;
    while index < |source|
      invariant index <= |source| && fresh(parser)
      invariant RunOn(source, START, Plain) == RunOn(source[index..], parser.Now(), tail)
    {
      ghost var rest, before := source[index..], parser.Now();
      StepMoves(rest, before);
      var stop, last := parser.Read(source, index);
      if stop {
        return None;
      }
      ghost var step := StepOn(rest, before);
      assert rest[step.n..] == source[last + 1..];
      tail := step.tail;
      index := last + 1;
    }
    assert source[index..] == "";
    ghost var end := parser.Now();
    if parser.quote != Unquoted {
      return None;
    }
    parser.FinishCommand();
    r := if parser.invalid then None else Some(parser.commands);
  }
}
