/** The parameter normaliser of the typing-animation card: query parameters with their
    handler's defaults, the `lines` list and the colour tokens. */
module TypingParams {
  import opened Wrappers
  import opened JsStrings

  /** The sample lines shown when `lines` is missing or empty, and their `;`-joined text. */
  const FirstSampleLine := "Open Source Contributor"
  const SecondSampleLine := "Building cool things"
  const DefaultLines := FirstSampleLine + ";" + SecondSampleLine

  /** The raw request. A string parameter is `None` when absent. A numeric parameter is
      `None` when absent or empty, and otherwise the natural number its text parses to. */
  datatype Request = Request(
    lines: Option<string>,
    width: Option<nat>,
    height: Option<nat>,
    color: Option<string>,
    particleColor: Option<string>,
    bg: Option<string>,
    background: Option<string>,
    font: Option<string>,
    size: Option<nat>,
    speed: Option<nat>,
    duration: Option<nat>,
    pause: Option<nat>,
    vCenter: Option<string>,
    loop: Option<string>,
    align: Option<string>)

  /** The normalised configuration the timeline compiler works from. */
  datatype Config = Config(
    lines: seq<string>,
    width: nat,
    height: nat,
    textColor: string,
    bgColor: string,
    particleColor: string,
    font: string,
    size: nat,
    msPerChar: nat,
    pause: nat,
    vCenter: bool,
    loop: bool,
    align: string)

  /** Trimming cannot introduce a `;`: the result is a slice of its input. */
  lemma TrimKeepsSemicolonFree(s: string)
    requires ';' !in s
    ensures ';' !in Trim(s)
  {
  }

  /** Every piece, trimmed. */
  function TrimAll(pieces: seq<string>): (r: seq<string>)
    ensures |r| == |pieces|
    ensures forall i :: 0 <= i < |r| ==> r[i] == Trim(pieces[i])
  {
    if pieces == [] then [] else [Trim(pieces[0])] + TrimAll(pieces[1..])
  }

  /** The `lines` parameter (or its default, when it is missing or empty) split on `;`,
      every piece trimmed. There is one line more than there are `;` in the text, no line
      holds a `;`, and no line starts or ends with whitespace. */
  function ParseLines(p: Option<string>): (r: seq<string>)
    ensures |r| == Count(StringOr(p, DefaultLines), ';') + 1
    ensures forall i :: 0 <= i < |r| ==> r[i] == Trim(Split(StringOr(p, DefaultLines))[i])
    ensures forall i :: 0 <= i < |r| ==> ';' !in r[i]
    ensures forall i :: 0 <= i < |r| ==>
              r[i] == [] || (!IsWhitespace(r[i][0]) && !IsWhitespace(r[i][|r[i]| - 1]))
  {
    var pieces := Split(StringOr(p, DefaultLines));
    var r := TrimAll(pieces);
    forall i | 0 <= i < |r| ensures ';' !in r[i] {
      TrimKeepsSemicolonFree(pieces[i]);
    }
    r
  }

  /** A missing or empty `lines` parameter yields the two sample lines. */
  lemma DefaultLinesParsed(p: Option<string>)
    requires p.None? || p.value == ""
    ensures ParseLines(p) == [FirstSampleLine, SecondSampleLine]
  {
    var first, second := FirstSampleLine, SecondSampleLine;
    var pieces := [first, second];
    assert Join(pieces) == DefaultLines;
    SplitJoin(pieces);
    assert Split(StringOr(p, DefaultLines)) == pieces;
    TrimUnchanged(first);
    TrimUnchanged(second);
    assert TrimAll(pieces) == pieces;
  }

  /** A `lines` parameter without `;` is a single line: the parameter, trimmed. */
  lemma SingleLineParsed(p: Option<string>)
    requires p.Some? && p.value != "" && ';' !in p.value
    ensures ParseLines(p) == [Trim(p.value)]
  {
    var pieces := Split(p.value);
    CountZero(p.value, ';');
    assert |pieces| == 1;
    JoinSplit(p.value);
    assert pieces == [p.value];
  }

  /** A colour token of 3 to 6 hexadecimal digits (`/^[0-9a-fA-F]{3,6}$/`). */
  predicate IsHexToken(c: string)
  {
    3 <= |c| <= 6 && forall i :: 0 <= i < |c| ==> IsHexDigit(c[i])
  }

  /** `fixColor`: a bare hexadecimal token becomes a `#` colour; any other token (a named
      colour, an already prefixed one) passes through. */
  function FixColor(c: string): (r: string)
  {
    if IsHexToken(c) then "#" + c else c
  }

  /** The token is prefixed exactly when it is 3 to 6 hex digits (4 and 5 included), and
      otherwise returned unchanged; applying `FixColor` twice equals applying it once. */
  lemma FixColorSpec(c: string)
    ensures FixColor(c) != c <==> IsHexToken(c)
    ensures FixColor(c) == c || FixColor(c) == "#" + c
    ensures FixColor(FixColor(c)) == FixColor(c)
  {
    if IsHexToken(c) {
      assert FixColor(c)[0] == '#';
      assert !IsHexDigit('#');
      assert |FixColor(c)| != |c|;
    }
  }

  /** The handler's parameter handling: each value or its default, `bg` before
      `background`, `speed` before `duration`, `vCenter` on unless it is `"false"`, `loop`
      on only for `"true"`, and the three colours through `FixColor`. */
  function Normalize(req: Request): Config
  {
    Config(
      lines := ParseLines(req.lines),
      width := req.width.GetOr(700),
      height := req.height.GetOr(150),
      textColor := FixColor(StringOr(req.color, "000000")),
      bgColor := FixColor(StringOr(req.bg, StringOr(req.background, "0d1117"))),
      particleColor := FixColor(StringOr(req.particleColor, "ffffff")),
      font := StringOr(req.font, "monospace"),
      size := req.size.GetOr(24),
      msPerChar := if req.speed.Some? then req.speed.value else req.duration.GetOr(120),
      pause := req.pause.GetOr(1000),
      vCenter := req.vCenter != Some("false"),
      loop := req.loop == Some("true"),
      align := StringOr(req.align, "left"))
  }

  /** An empty request gets the handler's defaults. */
  lemma NormalizeDefaults()
    ensures var cfg := Normalize(Request(None, None, None, None, None, None, None, None,
                                         None, None, None, None, None, None, None));
            && cfg.lines == [FirstSampleLine, SecondSampleLine]
            && cfg.width == 700 && cfg.height == 150 && cfg.size == 24
            && cfg.msPerChar == 120 && cfg.pause == 1000
            && cfg.textColor == "#000000" && cfg.bgColor == "#0d1117"
            && cfg.particleColor == "#ffffff" && cfg.font == "monospace"
            && cfg.vCenter && !cfg.loop && cfg.align == "left"
  {
    DefaultLinesParsed(None);
    DefaultColors();
  }

  /** The three default colour tokens are bare hexadecimal tokens and get their `#`. */
  lemma DefaultColors()
    ensures FixColor("000000") == "#000000"
    ensures FixColor("0d1117") == "#0d1117"
    ensures FixColor("ffffff") == "#ffffff"
  {
    HexDefault("000000");
    HexDefault("0d1117");
    HexDefault("ffffff");
  }

  /** A six-digit default colour is prefixed. */
  lemma HexDefault(c: string)
    requires |c| == 6 && forall i :: 0 <= i < 6 ==> '0' <= c[i] <= '9' || 'a' <= c[i] <= 'f'
    ensures FixColor(c) == "#" + c
  {
  }

  /** Which parameter wins: `bg` before `background` before `0d1117`, and `speed` before
      `duration` before 120; the cursor centres unless `vCenter` is exactly `"false"`, and
      loops only when `loop` is exactly `"true"`. */
  lemma NormalizeAliases(req: Request)
    ensures var cfg := Normalize(req);
            && (req.bg.Some? && req.bg.value != "" ==> cfg.bgColor == FixColor(req.bg.value))
            && ((req.bg.None? || req.bg.value == "") && req.background.Some? && req.background.value != "" ==>
                  cfg.bgColor == FixColor(req.background.value))
            && ((req.bg.None? || req.bg.value == "") && (req.background.None? || req.background.value == "") ==>
                  cfg.bgColor == "#0d1117")
            && (req.speed.Some? ==> cfg.msPerChar == req.speed.value)
            && (req.speed.None? && req.duration.Some? ==> cfg.msPerChar == req.duration.value)
            && (req.speed.None? && req.duration.None? ==> cfg.msPerChar == 120)
            && (cfg.vCenter <==> req.vCenter != Some("false"))
            && (cfg.loop <==> req.loop == Some("true"))
  {
    DefaultColors();
  }

  /** The colours of a normalised configuration are fixed points of `FixColor`: feeding
      them back through the normaliser would not prefix them again. */
  lemma NormalizedColorsStable(req: Request)
    ensures var cfg := Normalize(req);
            && FixColor(cfg.textColor) == cfg.textColor
            && FixColor(cfg.bgColor) == cfg.bgColor
            && FixColor(cfg.particleColor) == cfg.particleColor
  {
    FixColorSpec(StringOr(req.color, "000000"));
    FixColorSpec(StringOr(req.bg, StringOr(req.background, "0d1117")));
    FixColorSpec(StringOr(req.particleColor, "ffffff"));
  }
}
