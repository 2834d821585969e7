/** Quoting of text interpolated into a query string literal: every `'` is
    doubled and nothing else changes (`escapeString`). Beside the escaping
    itself: its inverse, and the reading of a quoted literal the way the
    store's lexer does, which shows that an escaped value can never end the
    literal early. */
module Escape {
  import opened Common

  const Quote: char := '\''

  function EscapeChar(c: char): string
  {
    if c == Quote then [Quote, Quote] else [c]
  }

  /** Specification of `escapeString`: each character mapped by EscapeChar,
      in order. */
  function Escaped(s: string): string
    decreases |s|
  {
    if s == [] then [] else EscapeChar(s[0]) + Escaped(s[1..])
  }

  function QuoteCount(s: string): nat
    decreases |s|
  {
    if s == [] then 0 else (if s[0] == Quote then 1 else 0) + QuoteCount(s[1..])
  }

  /** Escaping works character by character: it distributes over concatenation. */
  lemma {:induction false} EscapedAppend(a: string, b: string)
    ensures Escaped(a + b) == Escaped(a) + Escaped(b)
    decreases |a|
  {
    if a == [] {
      assert a + b == b;
    } else {
      assert (a + b)[1..] == a[1..] + b;
      EscapedAppend(a[1..], b);
    }
  }

  /** The loop of `escapeString`, appending one rune's worth of output per
      input character. */
  method EscapeString(s: string) returns (result: string)
    ensures result == Escaped(s)
  {
    result := "";
    for i := 0 to |s|
      invariant result == Escaped(s[..i])
    {
      assert s[..i + 1] == s[..i] + [s[i]];
      EscapedAppend(s[..i], [s[i]]);
      if s[i] == Quote {
        result := result + [Quote, Quote];
      } else {
        result := result + [s[i]];
      }
    }
    assert s[..|s|] == s;
  }

  /** The escaped text is as long as the input plus one per quote. */
  lemma {:induction false} EscapedLength(s: string)
    ensures |Escaped(s)| == |s| + QuoteCount(s)
    decreases |s|
  {
    if s != [] {
      EscapedLength(s[1..]);
    }
  }

  /** A text without quotes is left unchanged. */
  lemma {:induction false} EscapedWithoutQuote(s: string)
    requires Quote !in s
    ensures Escaped(s) == s
    decreases |s|
  {
    if s != [] {
      assert s[0] != Quote;
      assert Quote !in s[1..];
      EscapedWithoutQuote(s[1..]);
      assert s == [s[0]] + s[1..];
    }
  }

  /** Collapses every `''` back to `'`; any other character is kept. */
  function Unescape(t: string): (r: string)
    ensures |r| <= |t|
    decreases |t|
  {
    if t == [] then []
    else if |t| >= 2 && t[0] == Quote && t[1] == Quote then [Quote] + Unescape(t[2..])
    else [t[0]] + Unescape(t[1..])
  }

  /** Unescaping undoes escaping. */
  lemma {:induction false} UnescapeEscaped(s: string)
    ensures Unescape(Escaped(s)) == s
    decreases |s|
  {
    if s != [] {
      UnescapeEscaped(s[1..]);
      var t := Escaped(s);
      if s[0] == Quote {
        assert t == [Quote, Quote] + Escaped(s[1..]);
        assert t[2..] == Escaped(s[1..]);
      } else {
        assert t == [s[0]] + Escaped(s[1..]);
        assert t[1..] == Escaped(s[1..]);
      }
      assert s == [s[0]] + s[1..];
    }
  }

  /** Distinct texts escape to distinct texts. */
  lemma EscapedInjective(a: string, b: string)
    requires Escaped(a) == Escaped(b)
    ensures a == b
  {
    UnescapeEscaped(a);
    UnescapeEscaped(b);
  }

  function PrependTo(c: char, r: Option<(string, string)>): Option<(string, string)>
  {
    match r
    case None => None
    case Some((v, rest)) => Some(([c] + v, rest))
  }

  /** How an SQL lexer reads the body of a single-quoted literal: `''` stands
      for one quote and a lone `'` ends the literal. Gives the literal's value
      and the text after its closing quote, or None if it is never closed. */
  function ReadLiteral(t: string): (r: Option<(string, string)>)
    ensures r.Some? ==> |r.value.1| < |t|
    decreases |t|
  {
    if t == [] then None
    else if t[0] == Quote then
      if |t| >= 2 && t[1] == Quote then PrependTo(Quote, ReadLiteral(t[2..]))
      else Some(([], t[1..]))
    else PrependTo(t[0], ReadLiteral(t[1..]))
  }

  /** An escaped value placed between quotes is read back as exactly that
      value, and the lexer resumes right after its closing quote: the value
      cannot end the literal early nor inject text after it. */
  lemma {:induction false} ReadEscapedLiteral(s: string, rest: string)
    requires rest == [] || rest[0] != Quote
    ensures ReadLiteral(Escaped(s) + [Quote] + rest) == Some((s, rest))
    decreases |s|
  {
    var t := Escaped(s) + [Quote] + rest;
    if s == [] {
      assert t == [Quote] + rest;
      assert t[1..] == rest;
    } else {
      ReadEscapedLiteral(s[1..], rest);
      var u := Escaped(s[1..]) + [Quote] + rest;
      if s[0] == Quote {
        assert t == [Quote, Quote] + u;
        assert t[2..] == u;
      } else {
        assert t == [s[0]] + u;
        assert t[1..] == u;
      }
      assert s == [s[0]] + s[1..];
    }
  }
}
