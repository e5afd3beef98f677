/** Exactly when a here-document appended to a source is invisible in the parsed commands. */
module ShellLimits {
  import opened Common
  import opened Decimal
  import opened Shell
  import opened ShellTheorems

  /** A source behind which every here-document is skipped, whatever its delimiter, body and rest. */
  ghost predicate HidesDocuments(a: string)
    requires Parse(a).Some?
  {
    forall stripTabs: bool, d: string, lines: seq<string>, close: string, rest: string ::
      Parts(stripTabs, d, lines, close) ==>
        Parse(a + Document(stripTabs, d, lines, close, rest)) == Then(Parse(a).value, Parse(rest))
  }

  ghost predicate Parts(stripTabs: bool, d: string, lines: seq<string>, close: string) {
    && PlainWord(d) && (!stripTabs ==> d[0] != '-')
    && (forall l :: l in lines ==> '\n' !in l && !Closes(l, HereDoc(d, stripTabs)))
    && '\n' !in close && Closes(close, HereDoc(d, stripTabs))
  }

  function Document(stripTabs: bool, d: string, lines: seq<string>, close: string, rest: string): string {
    Operator(stripTabs) + (d + ("\n" + (Lines(lines) + (close + ("\n" + rest)))))
  }

  /** ` <<d`, then `d` alone on the next line. */
  function Smallest(d: string): string {
    " <<" + d + ("\n" + (d + ("\n" + "")))
  }

  function Long(n: nat): (d: string)
    ensures |d| == n && forall i :: 0 <= i < n ==> d[i] == 'D'
  {
    if n == 0 then "" else "D" + Long(n - 1)
  }

  // ---- behind a comment ----

  lemma StepInComment(s: string, st: State, t: string)
    requires s != "" && t != "" && t[0] == ' ' && StepOn(s, st).Go? && StepOn(s, st).tail == InComment
    ensures StepOn(s, st) == Go(|s|, st, InComment) && st.quote == Unquoted
    ensures StepOn(s + t, st).Go? && StepOn(s + t, st).st == st && StepOn(s + t, st).n == |s| + LineLength(t)
    ensures LineLength(t) < |t| ==> StepOn(s + t, st).tail == Plain
  {
    LineLengthExtends(s, t);
    assert (s + t)[0] == s[0];
  }

  /** One step over a comment and the line behind it. */
  lemma RunComment(s: string, st: State, n: nat, rest: string)
    requires s != "" && StepOn(s, st) == Go(n, st, Plain) && n <= |s| && s[n..] == rest
    ensures RunOn(s, st, Plain) == RunOn(rest, st, Plain)
  {
  }

  lemma SkippedBoth(a: string, t: string, n: nat)
    requires n <= |t|
    ensures (a + t)[|a| + n..] == t[n..]
  {
  }

  /** The comment swallows the first line of the text behind it. */
  lemma {:induction false} RunInComment(a: string, st: State, tail: Tail, t: string)
    requires Tidy(st) && t != "" && t[0] == ' ' && LineLength(t) < |t|
    requires RunOn(a, st, tail).Ended? && RunOn(a, st, tail).tail == InComment && tail == Plain
    ensures RunOn(a + t, st, tail) == RunOn(t[LineLength(t)..], RunOn(a, st, tail).st, Plain)
    decreases |a|
  {
    StepMoves(a, st);
    StepIsTidy(a, st);
    var Go(n, st', tail') := StepOn(a, st);
    if n == |a| {
      assert a[n..] == "";
      StepInComment(a, st, t);
      SkippedBoth(a, t, LineLength(t));
      RunComment(a + t, st, |a| + LineLength(t), t[LineLength(t)..]);
    } else {
      StepInside(a, st, t);
      assert (a + t)[n..] == a[n..] + t;
      RunInComment(a[n..], st', tail', t);
    }
  }

  lemma StepInside(s: string, st: State, t: string)
    requires s != "" && GoodDocs(st) && Follows(t) && StepOn(s, st).Go? && StepOn(s, st).n < |s|
    ensures StepOn(s + t, st) == StepOn(s, st) && StepOn(s, st).tail == Plain
  {
    StepExtends(s, st, t);
  }

  // ---- behind a closing line without a newline ----

  lemma {:induction false} StripTabsKeeps(l: string, u: string)
    requires u != "" && u[0] != '\t'
    ensures |StripTabs(l + u)| == |StripTabs(l)| + |u| && |StripTabs(l)| <= |l|
    decreases |l|
  {
    if l == "" {
      assert l + u == u;
    } else {
      assert (l + u)[0] == l[0] && (l + u)[1..] == l[1..] + u;
      StripTabsKeeps(l[1..], u);
    }
  }

  /** Text appended to a closing line keeps it from closing. */
  lemma SpoiledLine(l: string, d: string, doc: HereDoc)
    requires Closes(l, doc) && PlainWord(d)
    ensures !Closes(l + (" <<" + d), doc) && |doc.delimiter| <= |l|
  {
    var u := " <<" + d;
    assert PlainChar(d[|d| - 1]);
    assert (l + u)[|l + u| - 1] == d[|d| - 1];
    assert StripReturn(l + u) == l + u;
    StripTabsKeeps(l, u);
    if StripReturn(l) != l {
      assert l == StripReturn(l) + "\r";
      StripTabsKeeps(StripReturn(l), "\r");
    }
  }

  lemma {:induction false} NoTabs(d: string)
    ensures |StripTabs(d)| <= |d| && (PlainWord(d) ==> StripTabs(d) == d && StripReturn(d) == d)
  {
    if d != "" {
      NoTabs(d[1..]);
      if PlainWord(d) {
        assert PlainChar(d[0]) && PlainChar(d[|d| - 1]);
      }
    }
  }

  /** No line of the appended document closes a document whose delimiter is shorter than `d`. */
  lemma SmallestIsOpen(l: string, d: string, doc: HereDoc)
    requires Closes(l, doc) && PlainWord(d) && |d| > |l| && doc.delimiter != ""
    ensures SkipTo(Smallest(d), l, Closing(doc)).Unclosed?
  {
    var u := " <<" + d;
    SpoiledLine(l, d, doc);
    NoTabs(d);
    PlainWordCloses(d, false);
    assert Smallest(d) == u + ("\n" + (d + ("\n" + "")));
    SkipOverLine(u, d + ("\n" + ""), l, Closing(doc));
    SkipLine(d, "", Closing(doc));
    EmptyLineClosesNothing(doc);
  }

  lemma {:induction false} SkipSpoiled(s: string, line: string, d: string, doc: HereDoc)
    requires SkipTo(s, line, Closing(doc)).Past? && SkipTo(s, line, Closing(doc)).open
    requires PlainWord(d) && |d| > |line| + |s| && doc.delimiter != ""
    ensures SkipTo(s + Smallest(d), line, Closing(doc)).Unclosed?
    decreases |s|
  {
    var t := Smallest(d);
    if s == "" {
      assert s + t == t;
      SmallestIsOpen(line, d, doc);
    } else {
      assert (s + t)[0] == s[0] && (s + t)[1..] == s[1..] + t;
      if s[0] != '\n' {
        SkipSpoiled(s[1..], line + [s[0]], d, doc);
      } else {
        SkipSpoiled(s[1..], "", d, doc);
      }
    }
  }

  lemma {:induction false} SkipsSpoiled(s: string, d: string, docs: seq<HereDoc>)
    requires SkipDocuments(s, docs).Past? && SkipDocuments(s, docs).open
    requires PlainWord(d) && |d| > |s| && (forall d :: d in docs ==> d.delimiter != "") && docs != []
    ensures SkipDocuments(s + Smallest(d), docs).Unclosed?
    decreases |docs|
  {
    assert docs[0] in docs;
    if |docs| == 1 {
      OnlyDocument(s, docs);
      OnlyDocument(s + Smallest(d), docs);
      SkipSpoiled(s, "", d, docs[0]);
    } else {
      assert docs[1] in docs;
      MoreToCome(s, docs);
      var n := SkipTo(s, "", Closing(docs[0])).n;
      SkipExtends(s, "", Closing(docs[0]), Smallest(d));
      MoreDocuments(s, docs, Smallest(d), n);
      SkipsSpoiled(s[n..], d, docs[1..]);
    }
  }

  lemma NewlineUnclosed(s: string, st: State, t: string)
    requires s != "" && s[0] == '\n' && Newline(s, st).Go? && FinishCommand(st).docs != []
    requires SkipDocuments(s[1..] + t, FinishCommand(st).docs).Unclosed?
    ensures Newline(s + t, st).Stop?
  {
    assert (s + t)[1..] == s[1..] + t;
  }

  lemma NewlineSpoiled(s: string, st: State, d: string)
    requires s != "" && s[0] == '\n' && GoodDocs(st) && Newline(s, st).Go? && Newline(s, st).tail == OnDelimiter
    requires PlainWord(d) && |d| > |s|
    ensures Newline(s + Smallest(d), st).Stop?
  {
    FinishKeepsGoodDocs(st);
    SkipsSpoiled(s[1..], d, FinishCommand(st).docs);
    NewlineUnclosed(s, st, Smallest(d));
  }

  lemma StepSpoiled(s: string, st: State, d: string)
    requires s != "" && GoodDocs(st) && StepOn(s, st).Go? && StepOn(s, st).tail == OnDelimiter
    requires PlainWord(d) && |d| > |s|
    ensures StepOn(s + Smallest(d), st).Stop?
  {
    assert s[0] == '\n' && st.quote == Unquoted;
    NewlineSpoiled(s, st, d);
    assert (s + Smallest(d))[0] == s[0];
  }

  lemma {:induction false} RunSpoiled(a: string, st: State, tail: Tail, d: string)
    requires Tidy(st) && RunOn(a, st, tail).Ended? && RunOn(a, st, tail).tail == OnDelimiter && tail == Plain
    requires PlainWord(d) && |d| > |a|
    ensures RunOn(a + Smallest(d), st, tail).Failed?
    decreases |a|
  {
    StepMoves(a, st);
    StepIsTidy(a, st);
    var Go(n, st', tail') := StepOn(a, st);
    var t := Smallest(d);
    if n == |a| {
      assert a[n..] == "";
      StepSpoiled(a, st, d);
    } else {
      StepInside(a, st, t);
      assert (a + t)[n..] == a[n..] + t;
      RunSpoiled(a[n..], st', tail', d);
    }
  }

  // ---- the exact condition ----

  lemma WordOnALine(d: string)
    requires PlainWord(d)
    ensures Parse(d + ("\n" + "")) == Some([Command([d], false)])
  {
    RunPlainWord(d, "\n" + "", START, Plain);
    assert START.word + d == d;
    var st := START.(word := d, started := true);
    assert st.words + [st.word] == [d];
    assert FinishCommand(st) == START.(commands := [Command([d], false)]);
    NewlineIsClean("", st);
    assert FinishCommand(FinishCommand(st)) == FinishCommand(st);
  }

  lemma {:induction false} FirstLineOf(line: string, rest: string)
    requires '\n' !in line
    ensures LineLength(line + ("\n" + rest)) == |line|
  {
    if line != "" {
      assert (line + ("\n" + rest))[1..] == line[1..] + ("\n" + rest);
      FirstLineOf(line[1..], rest);
    }
  }

  lemma SmallestBehindComment(a: string, d: string)
    requires Closed(a) && RunOn(a, START, Plain).tail == InComment && PlainWord(d)
    ensures Parse(a + Smallest(d)) == Some(Parse(a).value + [Command([d], false)])
  {
    var st := RunOn(a, START, Plain).st;
    var rest := d + ("\n" + "");
    PlainWordCloses(d, false);
    FirstLineOf(" <<" + d, rest);
    RunInComment(a, START, Plain, Smallest(d));
    assert Smallest(d)[|d| + 3..] == "\n" + rest;
    RunIsTidy(a, START, Plain);
    NewlineIsClean(rest, st);
    ParseAfter(Parse(a).value, rest);
    WordOnALine(d);
  }

  lemma SmallestIsDocument(d: string)
    requires PlainWord(d)
    ensures Smallest(d) == Document(false, d, [], d, "")
  {
    assert Lines([]) + (d + ("\n" + "")) == d + ("\n" + "");
  }

  /**
   * A source that parses and leaves no here-document open hides every document appended to it
   * exactly when it ends neither in a comment nor on a closing line that lacks its newline.
   */
  lemma HidesDocumentsExactly(a: string)
    requires Closed(a)
    ensures HidesDocuments(a) <==> RunOn(a, START, Plain).tail == Plain
  {
    if RunOn(a, START, Plain).tail == Plain {
      forall stripTabs: bool, d: string, lines: seq<string>, close: string, rest: string
        | Parts(stripTabs, d, lines, close)
        ensures Parse(a + Document(stripTabs, d, lines, close, rest)) == Then(Parse(a).value, Parse(rest))
      {
        BodiesContributeNothing(a, stripTabs, d, lines, close, rest);
      }
    } else {
      var d := Long(|a| + 1);
      assert PlainWord(d);
      PlainWordCloses(d, false);
      assert Parts(false, d, [], d);
      SmallestIsDocument(d);
      assert Parse("") == Some([]) by { assert FinishCommand(START) == START; }
      if RunOn(a, START, Plain).tail == InComment {
        SmallestBehindComment(a, d);
        assert |Parse(a).value + [Command([d], false)]| != |Parse(a).value + []|;
      } else {
        RunSpoiled(a, START, Plain, d);
      }
    }
  }
}
