/**
 * The Python string operations the Jellyfin client relies on: `str.rstrip(chars)`,
 * `str.strip()`, `str.lower()` and `str.split(sep)` with a one-character separator.
 */
module PyStrings {

  /**
   * The characters for which Python's `str.isspace()` holds, which are the
   * characters `str.strip()` removes when called without arguments.
   */
  const Whitespace: set<char> := {
    '\t', '\n', '\U{0B}', '\U{0C}', '\r', '\U{1C}', '\U{1D}', '\U{1E}', '\U{1F}', ' ',
    '\U{85}', '\U{A0}', '\U{1680}',
    '\U{2000}', '\U{2001}', '\U{2002}', '\U{2003}', '\U{2004}', '\U{2005}',
    '\U{2006}', '\U{2007}', '\U{2008}', '\U{2009}', '\U{200A}',
    '\U{2028}', '\U{2029}', '\U{202F}', '\U{205F}', '\U{3000}'
  }

  /** `s.rstrip(chars)`: drops the longest suffix made only of characters in `chars`. */
  function RStrip(s: string, chars: set<char>): (r: string)
    ensures |r| <= |s| && r == s[..|r|]
    ensures forall k :: |r| <= k < |s| ==> s[k] in chars
    ensures r == [] || r[|r| - 1] !in chars
    decreases |s|
  {
    if s != [] && s[|s| - 1] in chars then RStrip(s[..|s| - 1], chars) else s
  }

  /** `s.lstrip(chars)`: drops the longest prefix made only of characters in `chars`. */
  function LStrip(s: string, chars: set<char>): (r: string)
    ensures |r| <= |s| && r == s[|s| - |r|..]
    ensures forall k :: 0 <= k < |s| - |r| ==> s[k] in chars
    ensures r == [] || r[0] !in chars
    decreases |s|
  {
    if s != [] && s[0] in chars then LStrip(s[1..], chars) else s
  }

  /** `s.strip()`. */
  function Strip(s: string): string {
    LStrip(RStrip(s, Whitespace), Whitespace)
  }

  /** Stripping is idempotent: a stripped string neither starts nor ends with whitespace. */
  lemma StripIdempotent(s: string)
    ensures Strip(Strip(s)) == Strip(s)
  {
    var t := RStrip(s, Whitespace);
    var u := LStrip(t, Whitespace);
    assert u == [] || u[|u| - 1] == t[|t| - 1];
    assert RStrip(u, Whitespace) == u;
    assert LStrip(u, Whitespace) == u;
  }

  /** `c.lower()` for ASCII letters; every other character is kept. */
  function LowerChar(c: char): char {
    if 'A' <= c <= 'Z' then (c as int - 'A' as int + 'a' as int) as char else c
  }

  /** `s.lower()`, folding ASCII letters only. */
  function Lower(s: string): (r: string)
    ensures |r| == |s|
    ensures forall k :: 0 <= k < |r| ==> !('A' <= r[k] <= 'Z')
    ensures forall k :: 0 <= k < |s| && !('A' <= s[k] <= 'Z') ==> r[k] == s[k]
    ensures forall k :: 0 <= k < |s| && 'A' <= s[k] <= 'Z' ==> r[k] as int == s[k] as int + 32
  {
    seq(|s|, k requires 0 <= k < |s| => LowerChar(s[k]))
  }

  /**
   * `s.split(sep)` for a one-character separator: the pieces between
   * consecutive separators, including empty pieces, always at least one.
   */
  function Split(s: string, sep: char): (parts: seq<string>)
    ensures 1 <= |parts|
    ensures forall k :: 0 <= k < |parts| ==> sep !in parts[k]
    ensures |parts[0]| <= |s| && parts[0] == s[..|parts[0]|]
    decreases |s|
  {
    if s == [] then [[]]
    else
      var rest := Split(s[1..], sep);
      if s[0] == sep then [[]] + rest else [[s[0]] + rest[0]] + rest[1..]
  }

  /** `sep.join(parts)`. */
  function Join(parts: seq<string>, sep: char): string
    requires 1 <= |parts|
    decreases |parts|
  {
    if |parts| == 1 then parts[0] else parts[0] + [sep] + Join(parts[1..], sep)
  }

  /** Joining the pieces of a split gives the original string back. */
  lemma {:induction false} JoinSplit(s: string, sep: char)
    ensures Join(Split(s, sep), sep) == s
    decreases |s|
  {
    if s != [] {
      var rest := Split(s[1..], sep);
      JoinSplit(s[1..], sep);
      if s[0] == sep {
        assert Split(s, sep)[1..] == rest;
      } else if |rest| == 1 {
        assert Split(s, sep) == [[s[0]] + rest[0]];
      } else {
        var parts := Split(s, sep);
        assert parts[1..] == rest[1..];
        assert Join(rest, sep) == rest[0] + [sep] + Join(rest[1..], sep);
      }
    }
  }

  /** A leading separator closes an empty first piece. */
  lemma SplitAfterSeparator(s: string, sep: char)
    ensures Split([sep] + s, sep) == [[]] + Split(s, sep)
  {
    assert ([sep] + s)[1..] == s;
  }

  /** A leading non-separator opens the first piece. */
  lemma SplitAfterOther(c: char, s: string, sep: char)
    requires c != sep
    ensures var rest := Split(s, sep); Split([c] + s, sep) == [[c] + rest[0]] + rest[1..]
  {
    assert ([c] + s)[1..] == s;
  }

  /** A separator-free prefix is the start of the first piece. */
  lemma {:induction false} SplitAfterPiece(p: string, r: string, sep: char)
    requires sep !in p
    ensures var rest := Split(r, sep); Split(p + r, sep) == [p + rest[0]] + rest[1..]
    decreases |p|
  {
    var rest := Split(r, sep);
    if p == [] {
      assert p + r == r;
      assert p + rest[0] == rest[0];
      assert [rest[0]] + rest[1..] == rest;
    } else {
      assert p + r == [p[0]] + (p[1..] + r);
      SplitAfterPiece(p[1..], r, sep);
      SplitAfterOther(p[0], p[1..] + r, sep);
      assert [p[0]] + (p[1..] + rest[0]) == p + rest[0];
    }
  }

  /** Splitting a join of separator-free pieces gives the pieces back. */
  lemma {:induction false} SplitJoin(parts: seq<string>, sep: char)
    requires 1 <= |parts|
    requires forall k :: 0 <= k < |parts| ==> sep !in parts[k]
    ensures Split(Join(parts, sep), sep) == parts
    decreases |parts|
  {
    var p := parts[0];
    if |parts| == 1 {
      SplitAfterPiece(p, [], sep);
      assert p + [] == p;
    } else {
      var tail := parts[1..];
      assert forall k :: 0 <= k < |tail| ==> sep !in tail[k] by {
        forall k | 0 <= k < |tail| ensures sep !in tail[k] {
          assert tail[k] == parts[k + 1];
        }
      }
      SplitJoin(tail, sep);
      var j := Join(tail, sep);
      assert Join(parts, sep) == p + ([sep] + j);
      SplitAfterPiece(p, [sep] + j, sep);
      SplitAfterSeparator(j, sep);
      assert parts == [p + []] + tail;
    }
  }

  /** `s.split(sep)[-1]`: the text after the last separator, or all of `s`. */
  function LastPiece(s: string, sep: char): string {
    var parts := Split(s, sep);
    parts[|parts| - 1]
  }

  /**
   * The last piece holds no separator, ends `s`, and is either the whole of `s`
   * or preceded in `s` by the separator.
   */
  lemma {:induction false} LastPieceIsSuffix(s: string, sep: char)
    ensures var r := LastPiece(s, sep);
      && sep !in r
      && |r| <= |s| && s[|s| - |r|..] == r
      && (|r| < |s| ==> s[|s| - |r| - 1] == sep)
      && (1 < |Split(s, sep)| ==> |r| < |s|)
    decreases |s|
  {
    if s != [] {
      var rest := Split(s[1..], sep);
      var r := LastPiece(s, sep);
      LastPieceIsSuffix(s[1..], sep);
      if s[0] == sep {
        assert Split(s, sep) == [[]] + rest;
        assert r == rest[|rest| - 1];
      } else if |rest| == 1 {
        JoinSplit(s[1..], sep);
        assert rest[0] == s[1..];
        assert r == [s[0]] + s[1..] == s;
      } else {
        assert Split(s, sep) == [[s[0]] + rest[0]] + rest[1..];
        assert r == rest[|rest| - 1];
      }
    }
  }
}
