/** The single-quote escape both composers apply to text they embed in an
    ffmpeg filter graph (`text.replace("'", "'\\''")`, then wrapped in single
    quotes), and a reader for quoted text that plays the partner: inside
    single quotes every character is literal up to the next quote; outside
    them a quote opens a quoted run and a backslash takes the next character
    literally (the convention of POSIX shells and of ffmpeg's tokenizer). */
module Quoting {
  import opened Text

  /** Every `'` becomes `'\''`; every other character is kept. */
  function Escape(s: string): string
  {
    if s == [] then []
    else EscapeOne(s[0]) + Escape(s[1..])
  }

  /** `'` + escaped text + `'`, the form written after `text=`. */
  function Quote(s: string): string
  {
    "'" + Escape(s) + "'"
  }

  /** Reads quoted text back; `quoted` says whether a quoted run is open. */
  function Unquote(s: string, quoted: bool): string
  {
    if s == [] then []
    else if s[0] == '\'' then Unquote(s[1..], !quoted)
    else if !quoted && s[0] == '\\' && |s| >= 2 then [s[1]] + Unquote(s[2..], quoted)
    else [s[0]] + Unquote(s[1..], quoted)
  }

  lemma {:induction false} EscapeAppend(a: string, b: string)
    ensures Escape(a + b) == Escape(a) + Escape(b)
    decreases |a|
  {
    if a == [] {
      assert a + b == b;
    } else {
      assert (a + b)[1..] == a[1..] + b;
      EscapeAppend(a[1..], b);
    }
  }

  /** Each quote grows the text by three characters; nothing else changes length. */
  lemma {:induction false} EscapeLength(s: string)
    ensures |Escape(s)| == |s| + 3 * Count('\'', s)
    decreases |s|
  {
    if s != [] {
      EscapeLength(s[1..]);
    }
  }

  /** Text without quotes is embedded unchanged, and text with a quote is not. */
  lemma {:induction false} EscapeIdentityIffNoQuote(s: string)
    ensures Escape(s) == s <==> NoChar('\'', s)
  {
    EscapeLength(s);
    if NoChar('\'', s) {
      CountNone('\'', s);
      EscapeKeepsQuoteFree(s);
    } else {
      var i :| 0 <= i < |s| && s[i] == '\'';
      CountPositive(s, i);
    }
  }

  lemma {:induction false} EscapeKeepsQuoteFree(s: string)
    requires NoChar('\'', s)
    ensures Escape(s) == s
    decreases |s|
  {
    if s != [] {
      EscapeKeepsQuoteFree(s[1..]);
    }
  }

  lemma {:induction false} CountPositive(s: string, i: nat)
    requires i < |s| && s[i] == '\''
    ensures Count('\'', s) > 0
    decreases i
  {
    if i > 0 {
      CountPositive(s[1..], i - 1);
    }
  }

  /** Reading an escaped run that is closed by a quote yields the original
      text, and reading continues unquoted after it. */
  lemma {:induction false} UnquoteEscaped(s: string, rest: string)
    ensures Unquote(Escape(s) + "'" + rest, true) == s + Unquote(rest, false)
    decreases |s|
  {
    if s == [] {
      UnquoteClosing(rest);
    } else {
      UnquoteEscaped(s[1..], rest);
      UnquoteEscapedStep(s[0], s[1..], rest);
      assert [s[0]] + s[1..] == s;
    }
  }

  /** One more character in front of an escaped run that reads back. */
  lemma UnquoteEscapedStep(c: char, tail: string, rest: string)
    requires Unquote(Escape(tail) + "'" + rest, true) == tail + Unquote(rest, false)
    ensures Unquote(Escape([c] + tail) + "'" + rest, true) == [c] + tail + Unquote(rest, false)
  {
    var t := Escape(tail) + "'" + rest;
    EscapeCons(c, tail, rest);
    UnquoteEscapedChar(c, t);
  }

  /** The closing quote ends the quoted run. */
  lemma UnquoteClosing(rest: string)
    ensures Unquote(Escape([]) + "'" + rest, true) == [] + Unquote(rest, false)
  {
    var w := Escape([]) + "'" + rest;
    assert w == ['\''] + rest;
    assert w[1..] == rest;
  }

  lemma EscapeCons(c: char, tail: string, rest: string)
    ensures Escape([c] + tail) + "'" + rest == EscapeOne(c) + (Escape(tail) + "'" + rest)
  {
    var s := [c] + tail;
    assert s[0] == c && s[1..] == tail;
    assert Escape(s) == EscapeOne(c) + Escape(tail);
  }

  function EscapeOne(c: char): string
  {
    if c == '\'' then ['\'', '\\', '\'', '\''] else [c]
  }

  /** Inside a quoted run, the escape of one character reads back as that
      character and leaves the run open. */
  lemma UnquoteEscapedChar(c: char, t: string)
    ensures Unquote(EscapeOne(c) + t, true) == [c] + Unquote(t, true)
  {
    var w := EscapeOne(c) + t;
    if c == '\'' {
      assert w[0] == '\'';
      assert Unquote(w, true) == Unquote(w[1..], false);
      var w1 := w[1..];
      assert w1[0] == '\\' && |w1| >= 2 && w1[1] == '\'';
      assert Unquote(w1, false) == [w1[1]] + Unquote(w1[2..], false);
      var w3 := w1[2..];
      assert w3[0] == '\'' && w3[1..] == t;
      assert Unquote(w3, false) == Unquote(t, true);
    } else {
      assert w[0] == c && w[1..] == t;
    }
  }

  /** Round trip: the quoted form of any text reads back as that text. */
  lemma QuoteRoundTrip(s: string)
    ensures Unquote(Quote(s), false) == s
  {
    UnquoteEscaped(s, []);
    assert Quote(s) == "'" + (Escape(s) + "'" + []);
    assert Quote(s)[1..] == Escape(s) + "'" + [];
  }

  /** Distinct texts never embed the same way. */
  lemma QuoteInjective(a: string, b: string)
    requires Quote(a) == Quote(b)
    ensures a == b
  {
    QuoteRoundTrip(a);
    QuoteRoundTrip(b);
  }

  /** Embedded anywhere, the quoted text still reads back from its own
      position. */
  lemma QuotedAt(pre: string, s: string, post: string)
    ensures |pre| + |Quote(s)| <= |pre + Quote(s) + post|
    ensures Unquote((pre + Quote(s) + post)[|pre|..|pre| + |Quote(s)|], false) == s
  {
    assert (pre + Quote(s) + post)[|pre|..|pre| + |Quote(s)|] == Quote(s);
    QuoteRoundTrip(s);
  }

  /** The same, for a text already known to be laid out that way. */
  lemma QuotedWithin(f: string, pre: string, s: string, post: string)
    requires f == pre + Quote(s) + post
    ensures |pre| + |Quote(s)| <= |f|
    ensures Unquote(f[|pre|..|pre| + |Quote(s)|], false) == s
  {
    QuotedAt(pre, s, post);
  }
}
