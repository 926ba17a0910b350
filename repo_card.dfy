/** The repository card: required parameters, the language colour table, and the
    two-line wrapping of the description. */
module RepoCard {
  import opened Wrappers
  import opened JsStrings
  import XmlEscape

  /** Longest description line, in characters. */
  const MaxLen: nat := 55

  const NoDescription := "No description provided"

  /** Colour of a language missing from the table, and the label of a missing language. */
  const DefaultLanguageColor := "#8b949e"
  const UnknownLanguage := "Unknown"

  /** The fixed language colour table. */
  const LanguageColors: map<string, string> := map[
    "JavaScript" := "#f1e05a", "TypeScript" := "#3178c6", "Python" := "#3572A5",
    "Java" := "#b07219", "Go" := "#00ADD8", "Rust" := "#dea584", "C" := "#555555",
    "C++" := "#f34b7d", "C#" := "#178600", "PHP" := "#4F5D95", "Ruby" := "#701516",
    "Swift" := "#F05138", "Kotlin" := "#A97BFF", "Dart" := "#00B4AB", "HTML" := "#e34c26",
    "CSS" := "#563d7c", "Vue" := "#41b883", "React" := "#61dafb"]

  /** `#` followed by six hexadecimal digits. */
  predicate IsHexColor(c: string)
  {
    |c| == 7 && c[0] == '#' && forall i :: 1 <= i < 7 ==> IsHexDigit(c[i])
  }

  /** `colors[data.language] || "#8b949e"`; a `null` language finds no entry. */
  function LanguageColor(language: Option<string>): string
  {
    if language.Some? && language.value in LanguageColors then LanguageColors[language.value]
    else DefaultLanguageColor
  }

  /** Every language gets a well-formed colour: a listed language its own entry of the
      table, and the grey fallback exactly when its name is missing from the table (no
      entry of the table is that grey). */
  lemma LanguageColorSpec(language: Option<string>)
    ensures IsHexColor(LanguageColor(language))
    ensures language.Some? && language.value in LanguageColors ==>
              LanguageColor(language) == LanguageColors[language.value]
    ensures (LanguageColor(language) == DefaultLanguageColor)
              <==> (language.None? || language.value !in LanguageColors)
  {
    if language.Some? && language.value in LanguageColors {
      var c := LanguageColors[language.value];
      assert c in LanguageColors.Values;
      assert c == "#f1e05a" || c == "#3178c6" || c == "#3572A5" || c == "#b07219"
          || c == "#00ADD8" || c == "#dea584" || c == "#555555" || c == "#f34b7d"
          || c == "#178600" || c == "#4F5D95" || c == "#701516" || c == "#F05138"
          || c == "#A97BFF" || c == "#00B4AB" || c == "#e34c26" || c == "#563d7c"
          || c == "#41b883" || c == "#61dafb";
    }
  }

  // ---------------------------------------------------------------------------
  // Description wrapping
  // ---------------------------------------------------------------------------

  /** `s.lastIndexOf(" ", from)`: the last position at or before `from` holding a space,
      or -1 when there is none. */
  function LastSpaceAtOrBefore(s: string, from: nat): (r: int)
    ensures -1 <= r <= from && r < |s|
    ensures r >= 0 ==> s[r] == ' '
    ensures forall i :: r < i <= from && i < |s| ==> s[i] != ' '
    decreases from
  {
    if from < |s| && s[from] == ' ' then from
    else if from == 0 then -1
    else LastSpaceAtOrBefore(s, from - 1)
  }

  /** `s.substring(0, n)`: the first `n` characters, or all of a shorter string. */
  function Take(s: string, n: nat): (r: string)
    ensures |r| <= n && |r| <= |s|
    ensures |s| <= n ==> r == s
    ensures |s| > n ==> |r| == n
    ensures r <= s
  {
    if |s| <= n then s else s[..n]
  }

  /** Where the first line ends: at the last space at or before position 55, or at 55 when
      there is none. The clauses pin the position: a space (or position 55), no space
      after it up to 55, and at 55 either a space there or none at all before it. */
  function BreakPoint(d: string): (r: nat)
    requires |d| > MaxLen
    ensures r <= MaxLen
    ensures r < MaxLen ==> d[r] == ' '
    ensures forall i :: r < i <= MaxLen ==> d[i] != ' '
    ensures r == MaxLen ==> d[MaxLen] == ' ' || forall i :: 0 <= i <= MaxLen ==> d[i] != ' '
  {
    var i := LastSpaceAtOrBefore(d, MaxLen);
    if i == -1 then MaxLen else i
  }

  /** The description text: `data.description`, or the placeholder when it is null or
      empty. */
  function DescriptionOrDefault(description: Option<string>): string
  {
    StringOr(description, NoDescription)
  }

  /** The wrapping as the handler writes it. A description of at most 55 characters is one
      line. A longer one is two: the description up to its break point, then the rest after
      it, trimmed and cut to 55 characters, followed by `...` exactly when the whole
      description is longer than 110 characters, whatever the cut did. */
  function WrapAsWritten(d: string): (r: seq<string>)
    ensures |r| == (if |d| <= MaxLen then 1 else 2)
    ensures |d| <= MaxLen ==> r == [d]
    ensures |d| > MaxLen ==> r[0] == d[..BreakPoint(d)] && |r[0]| <= MaxLen
    ensures |d| > MaxLen ==>
              var rest := Trim(d[BreakPoint(d)..]);
              var cut := if |rest| <= MaxLen then rest else rest[..MaxLen];
              && (|d| > 2 * MaxLen ==> r[1] == cut + "...")
              && (|d| <= 2 * MaxLen ==> r[1] == cut)
              && |r[1]| <= MaxLen + 3
  {
    if |d| <= MaxLen then [d]
    else
      var split := BreakPoint(d);
      [d[..split], Take(Trim(d[split..]), MaxLen) + (if |d| > MaxLen * 2 then "..." else "")]
  }

  /** The wrapping with the marker tied to the cut. The first line is the same as the
      handler's; the second is the rest after it, trimmed, shown whole when it fits in 55
      characters and otherwise cut to 55 and marked with `...`. */
  function Wrap(d: string): (r: seq<string>)
    ensures |r| == (if |d| <= MaxLen then 1 else 2)
    ensures |d| <= MaxLen ==> r == [d]
    ensures |d| > MaxLen ==> r[0] == d[..BreakPoint(d)] && |r[0]| <= MaxLen
    ensures |d| > MaxLen ==>
              var rest := Trim(d[BreakPoint(d)..]);
              && (|rest| <= MaxLen ==> r[1] == rest)
              && (|rest| > MaxLen ==> r[1] == rest[..MaxLen] + "...")
              && |r[1]| <= MaxLen + 3
  {
    if |d| <= MaxLen then [d]
    else
      var split := BreakPoint(d);
      var rest := Trim(d[split..]);
      [d[..split], Take(rest, MaxLen) + (if |rest| > MaxLen then "..." else "")]
  }

  /** The two wrappings agree on the first line and on the text of the second; they give
      the same lines exactly when the description is short, or when "longer than 110" and
      "the rest was cut" coincide. */
  lemma WrapVersionsAgree(d: string)
    ensures WrapAsWritten(d)[0] == Wrap(d)[0]
    ensures WrapAsWritten(d) == Wrap(d) <==>
              (|d| <= MaxLen || (|Trim(d[BreakPoint(d)..])| > MaxLen <==> |d| > 2 * MaxLen))
  {
    if |d| > MaxLen {
      var w, c := WrapAsWritten(d), Wrap(d);
      var rest := Trim(d[BreakPoint(d)..]);
      var cut := if |rest| <= MaxLen then rest else rest[..MaxLen];
      if (|rest| > MaxLen) != (|d| > 2 * MaxLen) {
        assert |w[1]| != |c[1]|;
      } else {
        assert w[1] == c[1];
        assert w == [w[0], w[1]] && c == [c[0], c[1]];
      }
    }
  }

  /** A description of 100 characters whose only space is at position 10 (ten
      characters, a space, then 89 non-blank ones): its remainder after the break has 89
      characters, the second line shows 55 of them, and since the description is not
      longer than 110 no `...` says that 34 were dropped. */
  lemma WrapAsWrittenDropsSilently(a: string, b: string)
    requires |a| == 10 && |b| == 89
    requires forall i :: 0 <= i < |a| ==> a[i] != ' '
    requires forall i :: 0 <= i < |b| ==> !IsWhitespace(b[i])
    ensures var d := a + " " + b;
            var r := WrapAsWritten(d);
            && |d| == 100
            && |r| == 2 && r[0] == a
            && Trim(d[10..]) == b
            && r[1] == b[..MaxLen]
            && Wrap(d)[1] == b[..MaxLen] + "..."
  {
    var d := a + " " + b;
    var i := LastSpaceAtOrBefore(d, MaxLen);
    assert d[10] == ' ';
    forall k | 10 < k <= MaxLen ensures d[k] != ' ' {
      assert d[k] == b[k - 11];
    }
    assert i == 10;
    assert d[..10] == a;
    assert d[10..] == " " + b;
    assert TrimStart(" " + b) == TrimStart(b) by {
      assert (" " + b)[1..] == b;
    }
    assert Trim(d[10..]) == b;
  }

  /** A description of 56 letters and 60 spaces: there is no space before position 56, so
      the first line is 55 letters and the remainder trims to the single last letter. The
      line is shown whole, yet the length test adds `...`. */
  lemma WrapAsWrittenMarksUncut()
    ensures var d := seq(56, _ => 'a') + seq(60, _ => ' ');
            var r := WrapAsWritten(d);
            && |r| == 2 && r[0] == seq(55, _ => 'a')
            && Trim(d[55..]) == "a"
            && r[1] == "a..."
            && Wrap(d)[1] == "a"
  {
    var d := seq(56, _ => 'a') + seq(60, _ => ' ');
    var i := LastSpaceAtOrBefore(d, MaxLen);
    assert i == -1;
    var s := d[55..];
    assert s[0] == 'a';
    assert forall k :: 1 <= k < |s| ==> s[k] == ' ';
    var t := Trim(s);
    assert TrimOffset(s) == 0;
    assert |t| == 1;
    assert t == "a";
    assert d[..55] == seq(55, _ => 'a');
  }

  // ---------------------------------------------------------------------------
  // The response
  // ---------------------------------------------------------------------------

  /** The fields of the repository read from the API. */
  datatype RepoData = RepoData(name: string, description: Option<string>,
                               language: Option<string>, stars: int, forks: int,
                               subscribers: Option<int>)

  /** The variable parts of the card, already escaped where the card escapes them. */
  datatype Card = Card(title: string, descLines: seq<string>, descY: seq<int>,
                       langColor: string, langLabel: string, stars: int, forks: int,
                       watchers: int)

  datatype Response =
    | MissingParameters   // 400, plain text
    | RepoNotFound        // 404, plain text
    | Svg(card: Card)     // 200, the SVG card

  /** The card of a fetched repository. */
  function CardOf(data: RepoData): Card
  {
    var lines := WrapAsWritten(DescriptionOrDefault(data.description));
    Card(XmlEscape.Escape(data.name),
         seq(|lines|, i requires 0 <= i < |lines| => XmlEscape.Escape(lines[i])),
         seq(|lines|, i requires 0 <= i < |lines| => i * 20),
         LanguageColor(data.language),
         XmlEscape.Escape(StringOr(data.language, UnknownLanguage)),
         data.stars, data.forks,
         data.subscribers.GetOr(0))
  }

  /** The handler: 400 exactly when `username` or `repo` is missing or empty, otherwise
      404 exactly when the repository was not found (`fetched` is `None` when the API
      answer is not ok), otherwise the card of the repository. */
  function Respond(username: Option<string>, repo: Option<string>, fetched: Option<RepoData>): (r: Response)
    ensures r.MissingParameters? <==> (username.None? || username.value == "" || repo.None? || repo.value == "")
    ensures r.RepoNotFound? <==> (username.Some? && username.value != "" && repo.Some? && repo.value != "" && fetched.None?)
    ensures r.Svg? ==> fetched.Some? && r.card == CardOf(fetched.value)
  {
    if username.None? || username.value == "" || repo.None? || repo.value == "" then MissingParameters
    else if fetched.None? then RepoNotFound
    else Svg(CardOf(fetched.value))
  }

  /** A card has one or two markup-free description lines 20 pixels apart, a markup-free
      title and language label, and a hexadecimal language colour. */
  lemma CardSpec(data: RepoData)
    ensures var card := CardOf(data);
            && 1 <= |card.descLines| <= 2 && |card.descY| == |card.descLines|
            && (forall i :: 0 <= i < |card.descY| ==> card.descY[i] == 20 * i)
            && (forall i :: 0 <= i < |card.descLines| ==> XmlEscape.IsMarkupFree(card.descLines[i]))
            && XmlEscape.IsMarkupFree(card.title)
            && XmlEscape.IsMarkupFree(card.langLabel)
            && IsHexColor(card.langColor)
  {
    LanguageColorSpec(data.language);
  }
}
