/** The text of a submission key (src/activity/lifecycle.ts:116-125, 317-319) identifies the key and its instance. */
module ActivityKeys {
  import opened ActivityWorld

  function HexDigit(n: nat): char
    requires n < 16
  {
    if n < 10 then '0' + n as char else 'a' + (n - 10) as char
  }

  /** How `JSON.stringify` writes one character of a string. */
  function Escaped(c: char): string {
    if c == '"' then "\\\""
    else if c == '\\' then "\\\\"
    else if c == '\U{8}' then "\\b"
    else if c == '\U{9}' then "\\t"
    else if c == '\U{A}' then "\\n"
    else if c == '\U{C}' then "\\f"
    else if c == '\U{D}' then "\\r"
    else if c < ' ' then ['\\', 'u', '0', '0', HexDigit(c as int / 16), HexDigit(c as int % 16)]
    else [c]
  }

  function Inside(s: string): string {
    if s == "" then "\"" else Escaped(s[0]) + Inside(s[1..])
  }

  /** `JSON.stringify` of a string: an opening quote, the escaped characters, a closing quote. */
  function Json(s: string): string {
    "\"" + Inside(s)
  }

  function Text(k: Key): string {
    Json(k.instance) + (":" + Json(k.submission))
  }

  lemma HexDigits(m: nat, n: nat)
    requires m < 32 && n < 32 && HexDigit(m / 16) == HexDigit(n / 16) && HexDigit(m % 16) == HexDigit(n % 16)
    ensures m == n
  {
  }

  /** The escapes are a prefix code, and none of them starts with a quote. */
  lemma EscapedIsPrefixCode(c: char, x: string, d: char, y: string)
    requires Escaped(c) + x == Escaped(d) + y
    ensures c == d && x == y
  {
    var s, t := Escaped(c) + x, Escaped(d) + y;
    assert s[0] == Escaped(c)[0] && t[0] == Escaped(d)[0];
    if Escaped(c) != [c] && Escaped(d) != [d] {
      assert s[1] == Escaped(c)[1] && t[1] == Escaped(d)[1];
      if |Escaped(c)| == 6 && |Escaped(d)| == 6 {
        assert s[4] == HexDigit(c as int / 16) && t[4] == HexDigit(d as int / 16);
        assert s[5] == HexDigit(c as int % 16) && t[5] == HexDigit(d as int % 16);
        HexDigits(c as int, d as int);
      }
    }
    assert c == d;
    assert s[|Escaped(c)|..] == x && t[|Escaped(d)|..] == y;
  }

  lemma OnlyTheEndIsAQuote(s: string, x: string)
    ensures Inside(s) != "" && ((Inside(s) + x)[0] == '"' <==> s == "")
  {
    if s != "" {
      assert (Inside(s) + x)[0] == Escaped(s[0])[0];
    }
  }

  lemma InsideSplits(s: string, x: string)
    requires s != ""
    ensures Inside(s) + x == Escaped(s[0]) + (Inside(s[1..]) + x)
  {
  }

  lemma InsideOfNothing(x: string, y: string)
    requires Inside("") + x == Inside("") + y
    ensures x == y
  {
    assert (Inside("") + x)[1..] == x && (Inside("") + y)[1..] == y;
  }

  lemma {:induction false} InsideIsSelfDelimiting(a: string, x: string, b: string, y: string)
    requires Inside(a) + x == Inside(b) + y
    ensures a == b && x == y
    decreases |a|
  {
    OnlyTheEndIsAQuote(a, x);
    OnlyTheEndIsAQuote(b, y);
    if a == "" {
      InsideOfNothing(x, y);
    } else {
      InsideSplits(a, x);
      InsideSplits(b, y);
      EscapedIsPrefixCode(a[0], Inside(a[1..]) + x, b[0], Inside(b[1..]) + y);
      InsideIsSelfDelimiting(a[1..], x, b[1..], y);
      assert a == [a[0]] + a[1..] && b == [b[0]] + b[1..];
    }
  }

  lemma JsonIsSelfDelimiting(a: string, x: string, b: string, y: string)
    requires Json(a) + x == Json(b) + y
    ensures a == b && x == y
  {
    assert (Json(a) + x)[1..] == Inside(a) + x;
    assert (Json(b) + y)[1..] == Inside(b) + y;
    InsideIsSelfDelimiting(a, x, b, y);
  }

  /** Different keys have different texts. */
  lemma TextIsInjective(k: Key, other: Key)
    requires Text(k) == Text(other)
    ensures k == other
  {
    var x, y := ":" + Json(k.submission), ":" + Json(other.submission);
    JsonIsSelfDelimiting(k.instance, x, other.instance, y);
    assert x[1..] == Json(k.submission) + "" && y[1..] == Json(other.submission) + "";
    JsonIsSelfDelimiting(k.submission, "", other.submission, "");
  }

  lemma PrefixedText(a: string, instance: string, rest: string)
    requires Json(instance) + ":" <= Json(a) + rest
    ensures a == instance
  {
    var prefix, text := Json(instance) + ":", Json(a) + rest;
    var more := text[|prefix|..];
    assert Json(instance) + (":" + more) == text;
    JsonIsSelfDelimiting(instance, ":" + more, a, rest);
  }

  /** `clearInstance` finds the settled keys of exactly its own instance by their prefix. */
  lemma PrefixIsInstance(k: Key, instance: string)
    ensures Json(instance) + ":" <= Text(k) <==> k.instance == instance
  {
    var rest := ":" + Json(k.submission);
    if Json(instance) + ":" <= Text(k) {
      PrefixedText(k.instance, instance, rest);
    }
    assert Json(k.instance) + rest == Json(k.instance) + ":" + Json(k.submission);
  }
}
