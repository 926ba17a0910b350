/** `escapeXml`, the helper each card handler applies to text it interpolates into SVG:
    every one of the five markup-significant characters is replaced by its predefined
    entity (XML 1.0, section 4.6), every other character is copied. */
module XmlEscape {

  /** The five characters the regular expression `/[<>&'"]/g` matches. */
  predicate IsSpecial(c: char)
  {
    c == '<' || c == '>' || c == '&' || c == '\'' || c == '"'
  }

  /** No character that could open a tag or close an attribute value: the only special
      character left in escaped text is the `&` that starts an entity. */
  predicate IsMarkupFree(s: string)
  {
    '<' !in s && '>' !in s && '\'' !in s && '"' !in s
  }

  /** The replacement for one character (the `switch` in the callback). */
  function EscapeChar(c: char): string
  {
    match c
    case '<' => "&lt;"
    case '>' => "&gt;"
    case '&' => "&amp;"
    case '\'' => "&apos;"
    case '"' => "&quot;"
    case _ => [c]
  }

  /** `escapeXml(s)`: the replacement of each character of `s`, concatenated in order.
      The result is never shorter than `s` and holds no `<`, `>`, `'` or `"`. */
  function Escape(s: string): (r: string)
    ensures |r| >= |s|
    ensures IsMarkupFree(r)
  {
    if s == [] then [] else EscapeChar(s[0]) + Escape(s[1..])
  }

  /** Decodes the five predefined entities; any other character, including an `&` that does
      not start one of them, is copied. This is the partner of `Escape`. */
  function Unescape(t: string): string
    decreases |t|
  {
    if t == [] then []
    else if "&lt;" <= t then ['<'] + Unescape(t[4..])
    else if "&gt;" <= t then ['>'] + Unescape(t[4..])
    else if "&amp;" <= t then ['&'] + Unescape(t[5..])
    else if "&apos;" <= t then ['\''] + Unescape(t[6..])
    else if "&quot;" <= t then ['"'] + Unescape(t[6..])
    else [t[0]] + Unescape(t[1..])
  }

  /** Escaping works character by character: it distributes over concatenation. */
  lemma {:induction false} EscapeAppend(a: string, b: string)
    ensures Escape(a + b) == Escape(a) + Escape(b)
  {
    if a != [] {
      var x, t := a[0], a[1..];
      assert a + b == [x] + (t + b);
      EscapeAppend(t, b);
      EscapeCons(x, t + b);
      var e := EscapeChar(x);
      assert e + (Escape(t) + Escape(b)) == (e + Escape(t)) + Escape(b);
    } else {
      assert a + b == b;
    }
  }

  /** The first character is escaped before the rest. */
  lemma EscapeCons(x: char, t: string)
    ensures Escape([x] + t) == EscapeChar(x) + Escape(t)
  {
    assert ([x] + t)[1..] == t;
  }

  /** A string with none of the five special characters is returned unchanged. */
  lemma {:induction false} EscapeIdentity(s: string)
    requires forall i :: 0 <= i < |s| ==> !IsSpecial(s[i])
    ensures Escape(s) == s
  {
    if s != [] {
      EscapeIdentity(s[1..]);
      assert s == [s[0]] + s[1..];
    }
  }

  /** Escaping adds exactly the entity bodies: the output is longer than the input
      exactly when the input holds a special character. */
  lemma {:induction false} EscapeGrowsIffSpecial(s: string)
    ensures |Escape(s)| > |s| <==> exists i :: 0 <= i < |s| && IsSpecial(s[i])
  {
    if s != [] {
      EscapeGrowsIffSpecial(s[1..]);
      if IsSpecial(s[0]) {
        assert IsSpecial(s[0]);
      } else {
        assert |EscapeChar(s[0])| == 1;
        forall i | 1 <= i < |s| && IsSpecial(s[i])
          ensures exists j :: 0 <= j < |s[1..]| && IsSpecial(s[1..][j])
        {
          assert s[1..][i - 1] == s[i];
        }
        forall j | 0 <= j < |s[1..]| && IsSpecial(s[1..][j])
          ensures exists i :: 0 <= i < |s| && IsSpecial(s[i])
        {
          assert s[j + 1] == s[1..][j];
        }
      }
    }
  }

  /** Decoding one escaped character in front of more text. */
  lemma UnescapeEscapeChar(c: char, rest: string)
    ensures Unescape(EscapeChar(c) + rest) == [c] + Unescape(rest)
  {
    var t := EscapeChar(c) + rest;
    if c == '<' {
      assert "&lt;" <= t && t[4..] == rest;
    } else if c == '>' {
      assert t[1] == 'g' && "&gt;" <= t && t[4..] == rest;
    } else if c == '&' {
      assert t[1] == 'a' && t[2] == 'm';
      assert "&amp;" <= t && t[5..] == rest;
    } else if c == '\'' {
      assert t[1] == 'a' && t[2] == 'p';
      assert "&apos;" <= t && t[6..] == rest;
    } else if c == '"' {
      assert t[1] == 'q';
      assert "&quot;" <= t && t[6..] == rest;
    } else {
      assert t[0] == c && t[0] != '&' && t[1..] == rest;
    }
  }

  /** Round trip: decoding the five entities recovers the original string. */
  lemma {:induction false} UnescapeEscape(s: string)
    ensures Unescape(Escape(s)) == s
  {
    if s != [] {
      UnescapeEscape(s[1..]);
      UnescapeEscapeChar(s[0], Escape(s[1..]));
      assert s == [s[0]] + s[1..];
    }
  }

  /** Escaping is injective: two different strings never render as the same text. */
  lemma EscapeInjective(a: string, b: string)
    requires Escape(a) == Escape(b)
    ensures a == b
  {
    UnescapeEscape(a);
    UnescapeEscape(b);
  }
}
