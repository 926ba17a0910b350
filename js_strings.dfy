/** The two JavaScript string operations the handlers rely on,
    `String.prototype.split(";")` and `String.prototype.trim()`, and the character classes
    their callers test. */
module JsStrings {

  /** The regular-expression character class `[0-9a-fA-F]`. */
  predicate IsHexDigit(ch: char)
  {
    ('0' <= ch <= '9') || ('a' <= ch <= 'f') || ('A' <= ch <= 'F')
  }

  /** The characters `trim` removes: ECMAScript WhiteSpace (tab, vertical tab, form feed,
      space, no-break space, byte order mark and the Unicode space separators) and
      LineTerminator (line feed, carriage return, line and paragraph separators). */
  predicate IsWhitespace(c: char)
  {
    || c == '\t' || c == '\n' || c == '\U{B}' || c == '\U{C}' || c == '\r' || c == ' '
    || c == '\U{A0}' || c == '\U{1680}' || ('\U{2000}' <= c <= '\U{200A}')
    || c == '\U{2028}' || c == '\U{2029}' || c == '\U{202F}' || c == '\U{205F}'
    || c == '\U{3000}' || c == '\U{FEFF}'
  }

  /** Number of occurrences of `c` in `s`. */
  function Count(s: string, c: char): nat
  {
    if s == [] then 0 else (if s[0] == c then 1 else 0) + Count(s[1..], c)
  }

  lemma {:induction false} CountZero(s: string, c: char)
    ensures Count(s, c) == 0 <==> c !in s
  {
    if s != [] {
      CountZero(s[1..], c);
      assert s == [s[0]] + s[1..];
    }
  }

  // ---------------------------------------------------------------------------
  // split(";")
  // ---------------------------------------------------------------------------

  /** `s.split(";")`: the maximal `;`-free pieces of `s`, in order. The empty string
      splits into one empty piece, and every `;` starts a new piece. */
  function Split(s: string): (r: seq<string>)
    ensures |r| == Count(s, ';') + 1
    ensures forall i :: 0 <= i < |r| ==> ';' !in r[i]
  {
    if s == [] then [[]]
    else
      var rest := Split(s[1..]);
      if s[0] == ';' then [[]] + rest
      else [[s[0]] + rest[0]] + rest[1..]
  }

  /** `pieces.join(";")`, the inverse of `Split`. */
  function Join(pieces: seq<string>): string
    requires |pieces| >= 1
  {
    if |pieces| == 1 then pieces[0] else pieces[0] + ";" + Join(pieces[1..])
  }

  /** Prepending a character to the first piece prepends it to the joined string. */
  lemma {:induction false} JoinPrependChar(c: char, pieces: seq<string>)
    requires |pieces| >= 1
    ensures Join([[c] + pieces[0]] + pieces[1..]) == [c] + Join(pieces)
  {
    var ps := [[c] + pieces[0]] + pieces[1..];
    if |pieces| > 1 {
      assert ps[1..] == pieces[1..];
      assert Join(ps) == ([c] + pieces[0]) + ";" + Join(pieces[1..]);
    }
  }

  /** Splitting loses nothing: joining the pieces back gives the original string. */
  lemma {:induction false} JoinSplit(s: string)
    ensures Join(Split(s)) == s
  {
    if s != [] {
      var rest := Split(s[1..]);
      JoinSplit(s[1..]);
      if s[0] == ';' {
        assert Split(s) == [[]] + rest;
        assert ([[]] + rest)[1..] == rest;
        assert Join(Split(s)) == [] + ";" + Join(rest);
      } else {
        JoinPrependChar(s[0], rest);
      }
      assert s == [s[0]] + s[1..];
    }
  }

  /** A `;`-free prefix sticks to the first piece. */
  lemma {:induction false} SplitPrefix(a: string, t: string)
    requires ';' !in a
    ensures Split(a + t) == [a + Split(t)[0]] + Split(t)[1..]
  {
    if a != [] {
      SplitPrefix(a[1..], t);
      assert (a + t)[1..] == a[1..] + t;
      assert (a + t)[0] == a[0];
      assert [a[0]] + (a[1..] + Split(t)[0]) == a + Split(t)[0];
    } else {
      assert a + t == t;
      var p := Split(t);
      assert a + p[0] == p[0];
      assert p == [p[0]] + p[1..];
    }
  }

  /** Splitting inverts joining, for pieces free of the separator. */
  lemma {:induction false} SplitJoin(pieces: seq<string>)
    requires |pieces| >= 1
    requires forall i :: 0 <= i < |pieces| ==> ';' !in pieces[i]
    ensures Split(Join(pieces)) == pieces
  {
    if |pieces| == 1 {
      SplitPrefix(pieces[0], []);
      assert pieces[0] + [] == pieces[0];
    } else {
      var tail := Join(pieces[1..]);
      SplitJoin(pieces[1..]);
      SplitPrefix(pieces[0], ";" + tail);
      assert Split(";" + tail) == [[]] + Split(tail) by {
        assert (";" + tail)[1..] == tail;
      }
      assert pieces[0] + ";" + tail == pieces[0] + (";" + tail);
      assert pieces[0] + [] == pieces[0];
      assert pieces == [pieces[0]] + pieces[1..];
    }
  }

  // ---------------------------------------------------------------------------
  // trim()
  // ---------------------------------------------------------------------------

  /** Drops leading whitespace: the result is a suffix of `s`, everything dropped is
      whitespace, and the result does not start with whitespace. */
  function TrimStart(s: string): (r: string)
    ensures |r| <= |s| && r == s[|s| - |r|..]
    ensures forall i :: 0 <= i < |s| - |r| ==> IsWhitespace(s[i])
    ensures r == [] || !IsWhitespace(r[0])
  {
    if s != [] && IsWhitespace(s[0]) then
      var r := TrimStart(s[1..]);
      assert forall i :: 1 <= i < |s| ==> s[i] == s[1..][i - 1];
      assert s[1..][|s[1..]| - |r|..] == s[|s| - |r|..];
      r
    else s
  }

  /** Drops trailing whitespace: the result is a prefix of `s`, everything dropped is
      whitespace, and the result does not end with whitespace. */
  function TrimEnd(s: string): (r: string)
    ensures |r| <= |s| && r == s[..|r|]
    ensures forall i :: |r| <= i < |s| ==> IsWhitespace(s[i])
    ensures r == [] || !IsWhitespace(r[|r| - 1])
  {
    if s != [] && IsWhitespace(s[|s| - 1]) then
      var r := TrimEnd(s[..|s| - 1]);
      assert forall i :: 0 <= i < |s| - 1 ==> s[i] == s[..|s| - 1][i];
      assert s[..|s| - 1][..|r|] == s[..|r|];
      r
    else s
  }

  /** Number of leading whitespace characters `trim` removes. */
  function TrimOffset(s: string): nat
  {
    |s| - |TrimStart(s)|
  }

  /** `s.trim()`: `s` with its leading and trailing whitespace removed. The result is the
      slice of `s` that starts at `TrimOffset(s)`, only whitespace lies outside it, and it
      neither starts nor ends with whitespace. */
  function Trim(s: string): (r: string)
    ensures TrimOffset(s) + |r| <= |s| && r == s[TrimOffset(s)..TrimOffset(s) + |r|]
    ensures forall i :: 0 <= i < TrimOffset(s) ==> IsWhitespace(s[i])
    ensures forall i :: TrimOffset(s) + |r| <= i < |s| ==> IsWhitespace(s[i])
    ensures r == [] || (!IsWhitespace(r[0]) && !IsWhitespace(r[|r| - 1]))
  {
    TrimEnd(TrimStart(s))
  }

  /** Trimming a string that neither starts nor ends with whitespace changes nothing. */
  lemma TrimUnchanged(s: string)
    requires s == [] || (!IsWhitespace(s[0]) && !IsWhitespace(s[|s| - 1]))
    ensures Trim(s) == s
  {
  }
}
