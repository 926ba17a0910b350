# readme-stats cards in Dafny

A model of the four SVG-card handlers of readme-stats-github, with proofs about them:

- **Typing animation** (`app/api/typing/route.ts`). The handler normalises the query
  parameters (the `;`-separated `lines`, the colour tokens, the numbers and their defaults).
  It then walks the lines, accumulating `currentDelay`, and emits each line's timing,
  keyframe percentages, step counts and position.
- **Most used languages** (`app/api/top-langs/route.js`). The handler adds up the language
  sizes of every repository into a dictionary with a running total. It sorts the entries by
  size, keeps five, and draws a row with a percentage bar for each.
- **Repository card** (`app/api/repo/route.js`). The handler checks the required parameters,
  looks up the language colour and wraps the description into at most two lines.
- **Statistics card** (`app/api/route.js`). The handler sums the stars, defaults the
  contribution counts, computes the capped score and its grade, and chooses between the
  card and the error cards.

The `escapeXml` helper that three of the handlers copy is modelled once, in `XmlEscape`.
It is given the decoder of the five predefined entities of XML 1.0 (section 4.6) as its
inverse.

Modules:

- `Wrappers`: `Option`, and JavaScript's `s || fallback` on strings.
- `JsStrings`: `split(";")`, its inverse `join(";")`, and `trim()` with the ECMAScript
  whitespace set.
- `XmlEscape`: `escapeXml` and its inverse.
- `TypingParams`: the parameter normaliser and `fixColor`.
- `TypingTimeline`: the line timeline.
  - Each line's frame is stated by a function of the configuration (`FrameAt`).
  - The handler's loop is the method `CompileTimeline`, proved to produce exactly those
    frames.
- `TopLangs`: the language card.
  - The nested loop is the method `AggregateLanguages`, proved equal to a fold of `Record`
    over the edges.
  - Lemmas state what the fold keeps: the key list, positive sizes, and a total equal to the
    sum of the sizes.
  - A stable insertion sort specifies the ordering.
- `RepoCard`: the repository card.
- `StatsCard`: the statistics card.

Sizes, percentages and pixel positions are exact: integers are unbounded and fractions are
`real`. A JavaScript `NaN` from `0 / 0` is a value of its own (`TypingTimeline.Percent`).

`fixColor` accepts every token of 3 to 6 hexadecimal digits (`/^[0-9a-fA-F]{3,6}$/`), 4
and 5 digits included.

The repository card is built with the description wrapping as the handler writes it
(`RepoCard.WrapAsWritten`). A corrected wrapping (`RepoCard.Wrap`) sits beside it; see
Findings.

## Model

| member | source | states |
|---|---|---|
| Wrappers.StringOr | app/api/typing/route.ts:14-17 | `s || fallback`: a present non-empty string wins; an absent or empty one gives the fallback |
| JsStrings.Split | app/api/typing/route.ts:8-9 | `split(";")` gives one piece more than there are `;` in the text, and no piece contains `;` |
| JsStrings.JoinSplit | app/api/typing/route.ts:9 | splitting loses nothing: joining the pieces with `;` gives back the text |
| JsStrings.SplitJoin | app/api/typing/route.ts:9 | splitting inverts joining for `;`-free pieces |
| JsStrings.Trim | app/api/typing/route.ts:10 | `trim()` returns a slice of its input; only whitespace lies outside the slice, and the result neither starts nor ends with whitespace |
| JsStrings.TrimUnchanged | app/api/typing/route.ts:10 | a string with no leading or trailing whitespace is returned unchanged |
| TypingParams.ParseLines | app/api/typing/route.ts:8-10 | line `i` is the `i`-th `;`-piece of the parameter (or its default), trimmed; the lines number one more than the `;` in the text; none contains `;`; none has leading or trailing whitespace |
| TypingParams.SingleLineParsed | app/api/typing/route.ts:8-10 | a non-empty `lines` without `;` is a single line: the parameter, trimmed |
| TypingParams.DefaultLinesParsed | app/api/typing/route.ts:8 | a missing or empty `lines` gives exactly the two sample lines |
| TypingParams.FixColorSpec | app/api/typing/route.ts:25 | `#` is prefixed exactly when the token is 3 to 6 hex digits; otherwise the token is unchanged; applying `fixColor` twice equals applying it once |
| TypingParams.NormalizeDefaults | app/api/typing/route.ts:12-28 | an empty request gets width 700, height 150, size 24, 120 ms per character, 1000 ms pause, colours `#000000`/`#0d1117`/`#ffffff`, monospace, centred vertically, no loop, left alignment and the two sample lines |
| TypingParams.NormalizeAliases | app/api/typing/route.ts:16-22 | `bg` wins over `background`, which wins over `0d1117`; `speed` wins over `duration`, which wins over 120; the text is centred unless `vCenter` is exactly `"false"` and loops only when `loop` is exactly `"true"` |
| TypingParams.NormalizedColorsStable | app/api/typing/route.ts:25-28 | every normalised colour is a fixed point of `fixColor` |
| TypingTimeline.CompileTimeline | app/api/typing/route.ts:94-172 | the per-line loop emits one frame per line, each equal to `FrameAt`; `totalDuration` is the reduce of the durations; after the loop `currentDelay == totalDuration` |
| TypingTimeline.TotalDurationIsSum | app/api/typing/route.ts:97-98 | `totalDuration` is the sum of the line durations plus one pause per line, the last line's pause included |
| TypingTimeline.TotalIsFinalOffset | app/api/typing/route.ts:98 | the reduce equals the start offset after the last line |
| TypingTimeline.OffsetIsSum | app/api/typing/route.ts:171 | line `i` starts after the durations of the earlier lines plus `i` pauses |
| TypingTimeline.ReduceFromOffset | app/api/typing/route.ts:98 | continuing the reduce from line `i`'s offset reaches the final offset |
| TypingTimeline.OffsetMonotone | app/api/typing/route.ts:171 | start offsets never decrease along the lines |
| TypingTimeline.SegmentsContiguous | app/api/typing/route.ts:97-171 | a line types for its length times the per-character duration; the next line starts where this line's pause ends; the last line's pause ends the cycle |
| TypingTimeline.LoopPercentagesOrdered | app/api/typing/route.ts:107-110 | in loop mode with a non-empty cycle, `0 <= start <= typeEnd <= showEnd <= 100`; the last line hides its cursor at 100%; every other line hides it where the next line starts |
| TypingTimeline.LoopPercentagesUndefined | app/api/typing/route.ts:108-110 | with an empty cycle every stop is `NaN` (`0 / 0`) |
| TypingTimeline.FiniteCursorSchedule | app/api/typing/route.ts:139-145 | in finite mode the cursor appears when its line starts and blinks once the line is typed; every line but the last hides it when the next line starts; the last never hides it |
| TypingTimeline.StepsNeverZero | app/api/typing/route.ts:115-144 | the step count is the line length, or 1 for an empty line, so it is never zero |
| TypingTimeline.Placement | app/api/typing/route.ts:152-159 | a line is `len * size * 0.6` wide; `center`, `right` and other alignments put its origin at `(width - w) / 2`, `width - w - 20` and 20; baselines are `size * 1.5` apart from a start that depends only on the centring flag, the height, the size and the number of lines, not on the line index or the other lines |
| TypingTimeline.ExampleSingleLine | app/api/typing/route.ts:97-98 | `"Hi"` at size 24, 120 ms and 1000 ms: 14.4-pixel characters, 240 ms of typing, a 1240 ms cycle |
| TypingTimeline.ExampleTwoLinesLooping | app/api/typing/route.ts:107-110 | two 2-character lines looping: a 2480 ms cycle, and the second line starts at 50% |
| XmlEscape.Escape | app/api/top-langs/route.js:108-119 | the escaped text is never shorter than the input and holds no `<`, `>`, `'` or `"` |
| XmlEscape.EscapeAppend | app/api/route.js:177-186 | escaping works character by character: it distributes over concatenation |
| XmlEscape.EscapeIdentity | app/api/repo/route.js:130-141 | text without the five special characters is returned unchanged |
| XmlEscape.EscapeGrowsIffSpecial | app/api/repo/route.js:131-140 | the output is longer than the input exactly when the input holds a special character |
| XmlEscape.UnescapeEscapeChar | app/api/repo/route.js:132-138 | decoding one escaped character gives back that character |
| XmlEscape.UnescapeEscape | app/api/repo/route.js:131-140 | decoding the five entities recovers the original text |
| XmlEscape.EscapeInjective | app/api/route.js:176-187 | two different texts never escape to the same output |
| TopLangs.AggregateLanguages | app/api/top-langs/route.js:66-85 | the nested loop leaves `stats`, its key order and `totalSize` equal to the fold of `Record` over all edges of the repositories that have edges; a missing list counts as empty |
| TopLangs.VisitEdges | app/api/top-langs/route.js:72-82 | the inner loop continues the fold over one repository's edges |
| TopLangs.VisitEdge | app/api/top-langs/route.js:76-81 | one pass of the inner loop leaves exactly the accumulators `Record` gives for that edge: a new name of positive size gets an entry and a place in the key order, and its size is added to the entry and the total |
| TopLangs.RecordValid | app/api/top-langs/route.js:76-81 | one edge keeps the invariant: every key is listed once, every entry is stored under its own name with a positive size, and the total is the sum of the sizes |
| TopLangs.TallyValid | app/api/top-langs/route.js:77-81 | after any edges `totalSize` equals the sum of the sizes stored in `stats`, and the invariant holds |
| TopLangs.TallyEntries | app/api/top-langs/route.js:70-85 | a language has an entry exactly when some edge of positive size names it; its size is the sum of its positive edge sizes and its colour that of its first such edge |
| TopLangs.InsertBySize | app/api/top-langs/route.js:87-88 | inserting into a list sorted by non-increasing size keeps it sorted and adds exactly that element |
| TopLangs.SortBySize | app/api/top-langs/route.js:87-88 | the sort gives a permutation of its input in non-increasing size, with the same total |
| TopLangs.TopFiveSelected | app/api/top-langs/route.js:87-89 | sort and `slice(0, 5)` keep `min(5, n)` entries from the input, in non-increasing size; nothing left out is larger than a selected entry |
| TopLangs.TopLanguagesSelected | app/api/top-langs/route.js:87-89 | the same for the dictionary's values |
| TopLangs.RowBounds | app/api/top-langs/route.js:125-139 | a language no larger than the total takes 0 to 100 percent and fills 0 to 120 pixels; the percentage is 0 without a total; rows are at `65 + 25 * index`, appear `150 * index` ms in and start their bar 200 ms later; the label is escaped |
| TopLangs.TotalPercentageIsShare | app/api/top-langs/route.js:126 | the percentages of the rows add up to the percentage of their summed sizes |
| TopLangs.PercentageAdd | app/api/top-langs/route.js:126 | percentages of one total add like the sizes they come from |
| TopLangs.PositivePrefixSum | app/api/top-langs/route.js:89 | for positive sizes, no prefix and no single entry exceeds the sum |
| TopLangs.CardRowsBounded | app/api/top-langs/route.js:125-131 | the card from a valid tally has at most five rows; each percentage is in [0, 100] and each bar in [0, 120]; the percentages add up to at most 100 |
| TopLangs.CardFromRepos | app/api/top-langs/route.js:66-89 | for any repositories, the tally is valid and the card has at most five rows, each percentage in [0, 100] and each bar in [0, 120] pixels, the percentages adding up to at most 100 |
| TopLangs.Respond | app/api/top-langs/route.js:8-105 | no token gives 500; a failed request gives 500; a non-ok answer gives its own status with "GitHub API Error"; GraphQL `errors` give 400 with the first message (500 when the array is empty); otherwise the bounded card of the aggregated languages |
| RepoCard.LanguageColorSpec | app/api/repo/route.js:37-43 | a listed language gets its own entry of the table; every language gets a `#` and six hex digits; the grey `#8b949e` is given exactly when the language is null or missing from the table |
| RepoCard.LastSpaceAtOrBefore | app/api/repo/route.js:51 | `lastIndexOf(" ", from)` is the last space at or before `from`, or -1 |
| RepoCard.Take | app/api/repo/route.js:55 | `substring(0, n)` is a prefix of at most `n` characters, and the whole of a shorter string |
| RepoCard.BreakPoint | app/api/repo/route.js:51-52 | the first line ends at the last space at or before position 55, or at 55 when there is none: no space lies between the break and 55, and a break at 55 has a space there or no space before it |
| RepoCard.WrapAsWritten | app/api/repo/route.js:47-57 | a description of at most 55 characters is one line; a longer one is two: the description up to the break point, then the trimmed rest cut to 55, followed by `...` exactly when the description is longer than 110; the second line has at most 58 characters |
| RepoCard.Wrap | app/api/repo/route.js:47-57 | the corrected wrapping: the same first line; the trimmed rest whole if it fits in 55, otherwise cut to 55 and followed by `...` (see Findings) |
| RepoCard.WrapVersionsAgree | app/api/repo/route.js:55 | the two wrappings share the first line, and give the same lines exactly when the description is short or when "longer than 110" coincides with "the rest was cut" |
| RepoCard.WrapAsWrittenDropsSilently | app/api/repo/route.js:55 | as written, a 100-character description with its only space at 10 loses 34 characters of its second line without `...` |
| RepoCard.WrapAsWrittenMarksUncut | app/api/repo/route.js:55 | as written, 56 letters and 60 spaces give a second line of one letter followed by `...`, though nothing was cut |
| RepoCard.Respond | app/api/repo/route.js:8-28 | 400 exactly when `username` or `repo` is missing or empty; otherwise 404 exactly when the repository was not found; otherwise the repository's card, with the description wrapped as the handler writes it |
| RepoCard.CardSpec | app/api/repo/route.js:43-115 | the card has one or two markup-free description lines 20 pixels apart, a markup-free title and language label, and a hexadecimal language colour |
| StatsCard.ReduceStarsIsSum | app/api/route.js:87-89 | the `reduce` adds the sum of the stars to its start value |
| StatsCard.StarSumCons | app/api/route.js:88 | the star sum of a repository followed by others is its stars plus theirs |
| StatsCard.TotalStars | app/api/route.js:87-89 | `totalStars` is the sum of the stars when the answer is an array, and 0 otherwise |
| StatsCard.StarSumPermutation | app/api/route.js:88 | the star total does not depend on the order of the repositories |
| StatsCard.StarSumRemove | app/api/route.js:88 | removing one repository subtracts its stars |
| StatsCard.CountsOf | app/api/route.js:91-93 | missing contributions, or a missing count, show as 0 |
| StatsCard.Score | app/api/route.js:96-99 | the score is at most 100 and at most the raw score, and equals one of them |
| StatsCard.ScoreMonotone | app/api/route.js:96-99 | more stars, followers or repositories never lower the score |
| StatsCard.GradeOf | app/api/route.js:101-102 | `A++` exactly above 90, `A+` exactly in (75, 90], `A` exactly in (60, 75], `B` exactly at 60 or below |
| StatsCard.GradeMonotone | app/api/route.js:101-102 | a higher score never gets a lower grade |
| StatsCard.GradeTextInjective | app/api/route.js:101-102 | different grades are shown differently |
| StatsCard.Respond | app/api/route.js:9-173 | no token gives 500 "Server Error: Missing Token"; a failed request gives 500; a 403 from any answer gives 403 ahead of the user check; otherwise a non-ok user answer gives 404 "User not found"; otherwise the card |
| StatsCard.CardContents | app/api/route.js:80-102 | the card shows the star sum when the repository answer is ok and an array (0 otherwise), zero counts when contributions are missing, the score capped at 100, its grade by the ladder of `GradeOf`, and the login escaped so that it decodes back |

## Left out

- Network and environment. The model does not make the `fetch` calls, read `process.env.GITHUB_TOKEN`, set response headers or caching, or call `console.error`. The token's presence, the HTTP statuses and the decoded answers are parameters.
- The `username` default `"octocat"`: it only feeds the request URLs.
- The particle field of the typing card. Its 1000 particles use `Math.random` and `toFixed`, and are decoration.
- The SVG and CSS text itself. The model keeps the numbers, colours and strings that the templates interpolate; card texts are kept escaped, while an error card keeps its message unescaped and the escaping `generateErrorSVG` applies to it is `XmlEscape.Escape`. It does not model how JavaScript prints numbers (`toFixed(1)`, long fractions).
- The progress circle of the statistics card. It uses `Math.PI` and floating-point geometry.
- `parseInt`. Numeric parameters are natural numbers or absent. A negative value parses to a negative number, text with trailing characters to its leading digits (`"12px"` is 12), and text without leading digits to `NaN`; the model takes naturals, so negative and `NaN` values are not modelled.
- The typing card interpolates its line text without escaping. The model claims no escaping for that card.
- Exceptions that are not modelled:
  - A JSON parse failure.
  - A missing `data.data`.
  - A non-array truthy `errors`.
  - Anything the repository handler (which has no `catch`) would throw.

  A failed request and an empty `errors` array are modelled.
- JavaScript strings count UTF-16 code units. The model counts characters, so lengths differ for characters outside the Basic Multilingual Plane.
- `Object.values` lists integer-like keys first. Names such as `"constructor"` would find a prototype property in `!stats[name]`. The model keeps plain insertion order and treats every name as a fresh key.
- JavaScript numbers are doubles. Sizes, stars and durations here are unbounded integers, and percentages and positions are exact reals.
- TopLangs.SortBySize: the comparator `b.size - a.size` is modelled as a stable sort by non-increasing size (stability as ECMAScript 2019 requires). The order among equal sizes is not stated as a separate property.
- An `errors[0]` without a `message` in the languages handler passes `undefined` to `escapeXml`, which throws and so gives 500. The model takes every GraphQL error message to be a string.
- Prototype members in the repository card's colour table: `colors[data.language]` on a plain object also finds inherited members, so a language named `constructor` or `toString` gets a function instead of the grey fallback. The model's table holds only the 18 listed names, and every other name, these included, gets the grey colour.
- The page and layout components (`app/page.tsx`, `app/layout.tsx`) are not part of this model.

## Findings

| source | as written | input that shows it | evidently intended | confidence | as-written member | corrected member |
|---|---|---|---|---|---|---|
| app/api/repo/route.js:55 | `...` is appended when the whole description is longer than 110 characters, not when the second line was cut | 10 letters, a space, 89 letters (length 100): the second line shows 55 of the 89 letters and no `...` | `...` exactly when the trimmed remainder is longer than 55 and was cut | not executed | RepoCard.WrapAsWrittenDropsSilently | RepoCard.Wrap |
| app/api/repo/route.js:55 | the same test adds `...` to a remainder that was not cut | 56 letters then 60 spaces (length 116): the remainder trims to one letter, shown as that letter followed by `...` | no marker when the whole remainder is shown | not executed | RepoCard.WrapAsWrittenMarksUncut | RepoCard.Wrap |
