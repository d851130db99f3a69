/**
 * The text between `StringBuilder` and `Scanner`: the writers append each
 * value followed by a newline, and `Scanner` splits the text into the
 * maximal runs of non-whitespace characters.
 */
module TextLines {
  import opened Decimal

  /** `Character.isWhitespace`, the delimiters of a default `Scanner`. */
  predicate IsWhitespace(c: char) {
    || c == ' ' || c == '\t' || c == '\n' || c == '\U{B}' || c == '\U{C}' || c == '\r'
    || ('\U{1C}' <= c <= '\U{1F}')
    || c == '\U{1680}' || ('\U{2000}' <= c <= '\U{2006}') || ('\U{2008}' <= c <= '\U{200A}')
    || c == '\U{2028}' || c == '\U{2029}' || c == '\U{205F}' || c == '\U{3000}'
  }

  /** A line that `Scanner` reads back as exactly one token. */
  predicate IsToken(s: string) {
    |s| > 0 && forall i :: 0 <= i < |s| ==> !IsWhitespace(s[i])
  }

  /** The text of `lines`, each followed by a newline. */
  function Unlines(lines: seq<string>): string {
    if lines == [] then "" else lines[0] + "\n" + Unlines(lines[1..])
  }

  lemma {:induction false} UnlinesConcat(a: seq<string>, b: seq<string>)
    ensures Unlines(a + b) == Unlines(a) + Unlines(b)
    decreases |a|
  {
    if a == [] {
      assert a + b == b;
    } else {
      assert (a + b)[1..] == a[1..] + b;
      UnlinesConcat(a[1..], b);
    }
  }

  /** The length of the run of non-whitespace characters `s` starts with. */
  function TokenEnd(s: string): (n: nat)
    ensures n <= |s|
    ensures forall i :: 0 <= i < n ==> !IsWhitespace(s[i])
    ensures n < |s| ==> IsWhitespace(s[n])
  {
    if s == [] || IsWhitespace(s[0]) then 0 else 1 + TokenEnd(s[1..])
  }

  /** The tokens a default `Scanner` returns from `s`, in order. */
  function Tokens(s: string): (r: seq<string>)
    ensures forall i :: 0 <= i < |r| ==> IsToken(r[i])
    decreases |s|
  {
    if s == [] then []
    else if IsWhitespace(s[0]) then Tokens(s[1..])
    else
      var n := TokenEnd(s);
      [s[..n]] + Tokens(s[n..])
  }

  /** A token followed by a newline is one token, and the rest is read after it. */
  lemma TokensOfLine(line: string, rest: string)
    requires IsToken(line)
    ensures Tokens(line + "\n" + rest) == [line] + Tokens(rest)
  {
    var s := line + "\n" + rest;
    TokenEndOfLine(line, "\n" + rest);
    assert s[..|line|] == line;
    assert s[|line|..] == "\n" + rest;
    assert ("\n" + rest)[1..] == rest;
  }

  lemma {:induction false} TokenEndOfLine(line: string, rest: string)
    requires IsToken(line) && rest != [] && IsWhitespace(rest[0])
    ensures TokenEnd(line + rest) == |line|
    decreases |line|
  {
    var s := line + rest;
    assert s[1..] == line[1..] + rest;
    if |line| > 1 {
      TokenEndOfLine(line[1..], rest);
    } else {
      assert line[1..] + rest == rest;
    }
  }

  /** Scanning the text of token lines gives the lines back. */
  lemma {:induction false} TokensOfUnlines(lines: seq<string>)
    requires forall i :: 0 <= i < |lines| ==> IsToken(lines[i])
    ensures Tokens(Unlines(lines)) == lines
    decreases |lines|
  {
    if lines != [] {
      TokensOfLine(lines[0], Unlines(lines[1..]));
      TokensOfUnlines(lines[1..]);
    }
  }

  /** The decimal text of an integer is one token. */
  lemma IntToStringIsToken(x: int)
    ensures IsToken(IntToString(x))
  {
    var s := IntToString(x);
    forall i | 0 <= i < |s|
      ensures !IsWhitespace(s[i])
    {
      if i > 0 {
        assert IsDigit(s[i]);
      }
    }
  }
}
