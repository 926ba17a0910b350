/** The most-used-languages card: the language sizes of every repository are added up per
    language, the five largest are kept, and each becomes a row with a percentage bar. */
module TopLangs {
  import opened Wrappers
  import XmlEscape

  /** One `languages.edges` entry of a repository: byte size, language name and colour
      (GitHub leaves the colour `null` for some languages). */
  datatype Edge = Edge(size: int, name: string, color: Option<string>)

  /** A repository node; `edges` is `None` when `languages` or `languages.edges` is absent. */
  datatype Repo = Repo(edges: Option<seq<Edge>>)

  /** An entry of the `stats` dictionary. */
  datatype Language = Language(name: string, color: Option<string>, size: int)

  /** The accumulators of the aggregation loop: the `stats` dictionary, the order in which
      its keys were created (the order `Object.values` lists them in) and `totalSize`. */
  datatype Tally = Tally(stats: map<string, Language>, order: seq<string>, total: int)

  // ---------------------------------------------------------------------------
  // Specification of the aggregation
  // ---------------------------------------------------------------------------

  /** The edges the loop visits, repository by repository; a repository without edges
      contributes none. */
  function EdgesOf(repos: seq<Repo>): seq<Edge>
  {
    if repos == [] then []
    else EdgesOf(repos[..|repos| - 1]) + repos[|repos| - 1].edges.GetOr([])
  }

  /** One iteration of the inner loop: an edge of positive size creates its language's
      entry if needed (with the edge's name and colour and size 0), then adds its size to
      that entry and to the total. Other edges change nothing. */
  function Record(t: Tally, e: Edge): Tally
  {
    if e.size > 0 then
      var stats := if e.name in t.stats then t.stats else t.stats[e.name := Language(e.name, e.color, 0)];
      var order := if e.name in t.stats then t.order else t.order + [e.name];
      Tally(stats[e.name := stats[e.name].(size := stats[e.name].size + e.size)], order, t.total + e.size)
    else t
  }

  /** The accumulators after visiting `es` in order, starting from an empty dictionary. */
  function TallyOf(es: seq<Edge>): Tally
  {
    if es == [] then Tally(map[], [], 0) else Record(TallyOf(es[..|es| - 1]), es[|es| - 1])
  }

  /** The nested loop over repositories and their edges. Its result is `TallyOf` of all the
      edges of all the repositories that have them, in visiting order; a missing user or
      repository list counts as no repositories. */
  method AggregateLanguages(nodes: Option<seq<Repo>>)
    returns (stats: map<string, Language>, order: seq<string>, totalSize: int)
    ensures Tally(stats, order, totalSize) == TallyOf(EdgesOf(nodes.GetOr([])))
  {
    var repos := nodes.GetOr([]);
    stats, order, totalSize := map[], [], 0;
    var i := 0;
    while i < |repos|
      invariant 0 <= i <= |repos|
      invariant Tally(stats, order, totalSize) == TallyOf(EdgesOf(repos[..i]))
    {
      assert repos[..i + 1][..i] == repos[..i];
      if repos[i].edges.Some? {
        stats, order, totalSize := VisitEdges(stats, order, totalSize, repos[i].edges.value, EdgesOf(repos[..i]));
      } else {
        assert EdgesOf(repos[..i]) + [] == EdgesOf(repos[..i]);
      }
      i := i + 1;
    }
    assert repos[..i] == repos;
  }

  /** The inner loop over one repository's edges: continuing from the accumulators of the
      edges `seen` so far, it leaves the accumulators of `seen + edges`. */
  method VisitEdges(stats0: map<string, Language>, order0: seq<string>, total0: int,
                    edges: seq<Edge>, ghost seen: seq<Edge>)
    returns (stats: map<string, Language>, order: seq<string>, totalSize: int)
    requires Tally(stats0, order0, total0) == TallyOf(seen)
    ensures Tally(stats, order, totalSize) == TallyOf(seen + edges)
  {
    stats, order, totalSize := stats0, order0, total0;
    var j := 0;
    assert seen + edges[..0] == seen;
    while j < |edges|
      invariant 0 <= j <= |edges|
      invariant Tally(stats, order, totalSize) == TallyOf(seen + edges[..j])
    {
      var e := edges[j];
      stats, order, totalSize := VisitEdge(stats, order, totalSize, e);
      RecordNext(seen + edges[..j], e);
      assert seen + edges[..j + 1] == (seen + edges[..j]) + [e];
      j := j + 1;
    }
    assert edges[..j] == edges;
  }

  /** The body of the inner loop: an edge of positive size creates its language's entry
      when the name is new, then adds its size to the entry and to the total. */
  method VisitEdge(stats0: map<string, Language>, order0: seq<string>, total0: int, e: Edge)
    returns (stats: map<string, Language>, order: seq<string>, totalSize: int)
    ensures Tally(stats, order, totalSize) == Record(Tally(stats0, order0, total0), e)
  {
    stats, order, totalSize := stats0, order0, total0;
    if e.size > 0 {
      if e.name !in stats {
        stats := stats[e.name := Language(e.name, e.color, 0)];
        order := order + [e.name];
      }
      stats := stats[e.name := stats[e.name].(size := stats[e.name].size + e.size)];
      totalSize := totalSize + e.size;
    }
  }

  /** Visiting one more edge is one more `Record`. */
  lemma RecordNext(es: seq<Edge>, e: Edge)
    ensures TallyOf(es + [e]) == Record(TallyOf(es), e)
  {
    assert (es + [e])[..|es|] == es;
  }

  // ---------------------------------------------------------------------------
  // The loop invariant: the total is the sum of the stored sizes
  // ---------------------------------------------------------------------------

  /** Sum of the sizes of a sequence of languages. */
  function SumSizes(langs: seq<Language>): int
  {
    if langs == [] then 0 else langs[0].size + SumSizes(langs[1..])
  }

  /** Every listed name has an entry. */
  predicate Keyed(t: Tally)
  {
    forall k :: 0 <= k < |t.order| ==> t.order[k] in t.stats
  }

  /** The dictionary's values in key-creation order (`Object.values(stats)`). */
  function Values(t: Tally): (r: seq<Language>)
    requires Keyed(t)
    ensures |r| == |t.order|
  {
    seq(|t.order|, k requires 0 <= k < |t.order| => t.stats[t.order[k]])
  }

  /** The invariant of the aggregation: the key list holds every key exactly once, each
      entry is stored under its own name with a positive size, and `totalSize` is the sum
      of the stored sizes. */
  predicate Valid(t: Tally)
  {
    && Keyed(t)
    && (forall name :: name in t.stats ==> name in t.order)
    && (forall a, b :: 0 <= a < b < |t.order| ==> t.order[a] != t.order[b])
    && (forall name :: name in t.stats ==> t.stats[name].name == name && t.stats[name].size > 0)
    && t.total == SumSizes(Values(t))
  }

  lemma {:induction false} SumSizesAppend(a: seq<Language>, b: seq<Language>)
    ensures SumSizes(a + b) == SumSizes(a) + SumSizes(b)
  {
    if a != [] {
      SumSizesAppend(a[1..], b);
      assert (a + b)[1..] == a[1..] + b;
    } else {
      assert a + b == b;
    }
  }

  /** Changing the size of the entry at position `p` changes the sum by the difference. */
  lemma {:induction false} SumSizesUpdate(s: seq<Language>, p: nat, x: Language)
    requires p < |s|
    ensures SumSizes(s[p := x]) == SumSizes(s) - s[p].size + x.size
  {
    if p > 0 {
      SumSizesUpdate(s[1..], p - 1, x);
      assert s[p := x][1..] == s[1..][p - 1 := x];
    }
  }

  /** `Record` keeps the invariant. */
  lemma RecordValid(t: Tally, e: Edge)
    requires Valid(t)
    ensures Valid(Record(t, e))
  {
    if e.size > 0 {
      if e.name in t.stats {
        RecordExistingValid(t, e);
      } else {
        RecordNewValid(t, e);
      }
    }
  }

  /** An edge of a language already present adds to its entry and to the total. */
  lemma RecordExistingValid(t: Tally, e: Edge)
    requires Valid(t) && e.size > 0 && e.name in t.stats
    ensures Valid(Record(t, e))
  {
    var t' := Record(t, e);
    var before := Values(t);
    var p :| 0 <= p < |t.order| && t.order[p] == e.name;
    assert t'.order == t.order;
    assert Values(t') == before[p := t'.stats[e.name]];
    SumSizesUpdate(before, p, t'.stats[e.name]);
  }

  /** An edge of a new language creates its entry at the end of the key list. */
  lemma RecordNewValid(t: Tally, e: Edge)
    requires Valid(t) && e.size > 0 && e.name !in t.stats
    ensures Valid(Record(t, e))
  {
    var t' := Record(t, e);
    var before := Values(t);
    assert t'.order == t.order + [e.name];
    assert t'.stats == t.stats[e.name := Language(e.name, e.color, e.size)];
    assert Values(t') == before + [t'.stats[e.name]];
    SumSizesAppend(before, [t'.stats[e.name]]);
    assert SumSizes([t'.stats[e.name]]) == e.size;
  }

  /** The aggregation invariant holds after any sequence of edges: in particular
      `totalSize` always equals the sum of the sizes stored in `stats`. */
  lemma {:induction false} TallyValid(es: seq<Edge>)
    ensures Valid(TallyOf(es))
  {
    if es != [] {
      TallyValid(es[..|es| - 1]);
      RecordValid(TallyOf(es[..|es| - 1]), es[|es| - 1]);
    }
  }

  // ---------------------------------------------------------------------------
  // What each entry holds
  // ---------------------------------------------------------------------------

  /** Sum of the positive sizes of the edges named `name`. */
  function PositiveSum(es: seq<Edge>, name: string): int
  {
    if es == [] then 0
    else
      var e := es[|es| - 1];
      PositiveSum(es[..|es| - 1], name) + (if e.name == name && e.size > 0 then e.size else 0)
  }

  /** The first edge named `name` with a positive size, if any. */
  function FirstPositive(es: seq<Edge>, name: string): Option<Edge>
  {
    if es == [] then None
    else
      var e := es[|es| - 1];
      var f := FirstPositive(es[..|es| - 1], name);
      if f.Some? then f else if e.name == name && e.size > 0 then Some(e) else None
  }

  /** A language has an entry exactly when some edge of positive size names it; its size is
      the sum of its positive edge sizes, and its colour is that of its first such edge
      (later edges only add to the size). */
  lemma {:induction false} TallyEntries(es: seq<Edge>, name: string)
    ensures name in TallyOf(es).stats <==> FirstPositive(es, name).Some?
    ensures name in TallyOf(es).stats ==>
              && TallyOf(es).stats[name].size == PositiveSum(es, name)
              && TallyOf(es).stats[name].color == FirstPositive(es, name).value.color
    ensures name !in TallyOf(es).stats ==> PositiveSum(es, name) == 0
  {
    if es != [] {
      TallyEntries(es[..|es| - 1], name);
    }
  }

  // ---------------------------------------------------------------------------
  // Sort by descending size, keep five
  // ---------------------------------------------------------------------------

  predicate NonIncreasing(s: seq<Language>)
  {
    forall a, b :: 0 <= a < b < |s| ==> s[a].size >= s[b].size
  }

  /** Inserts `x` after every element at least as large: placing a later element behind its
      equals is what makes the sort stable. */
  function InsertBySize(x: Language, s: seq<Language>): (r: seq<Language>)
    requires NonIncreasing(s)
    ensures |r| == |s| + 1
    ensures NonIncreasing(r)
    ensures multiset(r) == multiset(s) + multiset{x}
    ensures SumSizes(r) == SumSizes(s) + x.size
  {
    if s == [] || x.size > s[0].size then
      PrependLarger(x, s);
      ConsSums(x, s);
      [x] + s
    else
      var rest := InsertBySize(x, s[1..]);
      assert s == [s[0]] + s[1..];
      HeadDominates(s[0], x, s[1..], rest);
      ConsSums(s[0], rest);
      ConsSums(s[0], s[1..]);
      [s[0]] + rest
  }

  /** Size and contents of a list with one more element in front. */
  lemma ConsSums(h: Language, t: seq<Language>)
    ensures SumSizes([h] + t) == h.size + SumSizes(t)
    ensures multiset([h] + t) == multiset{h} + multiset(t)
  {
    assert ([h] + t)[1..] == t;
  }

  /** An element larger than the head of a sorted list can go in front of it. */
  lemma PrependLarger(x: Language, s: seq<Language>)
    requires NonIncreasing(s)
    requires s == [] || x.size > s[0].size
    ensures NonIncreasing([x] + s)
  {
    var r := [x] + s;
    forall a, b | 0 <= a < b < |r| ensures r[a].size >= r[b].size {
      assert r[b] == s[b - 1];
      if a == 0 {
        assert s[0].size >= s[b - 1].size;
      } else {
        assert r[a] == s[a - 1];
      }
    }
  }

  /** The head of a sorted list stays ahead of the list with `x` inserted, when `x` is no
      larger than it. */
  lemma HeadDominates(h: Language, x: Language, tail: seq<Language>, rest: seq<Language>)
    requires NonIncreasing([h] + tail) && NonIncreasing(rest)
    requires x.size <= h.size
    requires multiset(rest) == multiset(tail) + multiset{x}
    ensures NonIncreasing([h] + rest)
  {
    forall k | 0 <= k < |rest| ensures rest[k].size <= h.size {
      var y := rest[k];
      assert y in multiset(rest);
      if y != x {
        assert multiset(tail)[y] == multiset(rest)[y];
        assert y in multiset(tail);
        var j :| 0 <= j < |tail| && tail[j] == y;
        assert ([h] + tail)[0] == h && ([h] + tail)[j + 1] == y;
      }
    }
    var r := [h] + rest;
    forall a, b | 0 <= a < b < |r| ensures r[a].size >= r[b].size {
      if a == 0 {
        assert r[b] == rest[b - 1];
      } else {
        assert r[a] == rest[a - 1] && r[b] == rest[b - 1];
      }
    }
  }

  /** `.sort((a, b) => b.size - a.size)`: a stable sort by non-increasing size. The result
      is a permutation of the input, with the same total size. */
  function SortBySize(s: seq<Language>): (r: seq<Language>)
    ensures |r| == |s|
    ensures NonIncreasing(r)
    ensures multiset(r) == multiset(s)
    ensures SumSizes(r) == SumSizes(s)
  {
    if s == [] then []
    else
      var init := s[..|s| - 1];
      assert s == init + [s[|s| - 1]];
      SumSizesAppend(init, [s[|s| - 1]]);
      InsertBySize(s[|s| - 1], SortBySize(init))
  }

  /** `.sort((a, b) => b.size - a.size).slice(0, 5)`. */
  function TopFive(s: seq<Language>): seq<Language>
  {
    var sorted := SortBySize(s);
    sorted[..if |sorted| < 5 then |sorted| else 5]
  }

  /** `Object.values(stats).sort(...).slice(0, 5)`. */
  function TopLanguages(t: Tally): seq<Language>
    requires Keyed(t)
  {
    TopFive(Values(t))
  }

  /** In a list sorted by non-increasing size, nothing outside a prefix is larger than
      anything inside it. */
  lemma PrefixDominates(s: seq<Language>, sorted: seq<Language>, m: nat)
    requires NonIncreasing(sorted) && m <= |sorted|
    requires multiset(sorted) == multiset(s)
    ensures multiset(sorted[..m]) <= multiset(s)
    ensures forall x, k :: x in multiset(s) - multiset(sorted[..m]) && 0 <= k < m ==>
              x.size <= sorted[k].size
  {
    var r, rest := sorted[..m], sorted[m..];
    assert sorted == r + rest;
    assert multiset(sorted) == multiset(r) + multiset(rest);
    forall x, k | x in multiset(s) - multiset(r) && 0 <= k < m
      ensures x.size <= sorted[k].size
    {
      assert x in multiset(rest);
      var j :| 0 <= j < |rest| && rest[j] == x;
      assert sorted[m + j] == x;
    }
  }

  /** A prefix of a sorted list is sorted. */
  lemma PrefixNonIncreasing(sorted: seq<Language>, m: nat)
    requires NonIncreasing(sorted) && m <= |sorted|
    ensures NonIncreasing(sorted[..m])
  {
    var r := sorted[..m];
    forall a, b | 0 <= a < b < |r| ensures r[a].size >= r[b].size {
      assert r[a] == sorted[a] && r[b] == sorted[b];
    }
  }

  /** At most five entries, all taken from the input, in non-increasing size; nothing left
      out is larger than any selected entry. */
  lemma TopFiveSelected(s: seq<Language>)
    ensures var r := TopFive(s);
            && |r| == (if |s| < 5 then |s| else 5)
            && NonIncreasing(r)
            && multiset(r) <= multiset(s)
            && forall x, k :: x in multiset(s) - multiset(r) && 0 <= k < |r| ==> x.size <= r[k].size
  {
    var sorted := SortBySize(s);
    var m := if |sorted| < 5 then |sorted| else 5;
    var r := sorted[..m];
    assert TopFive(s) == r;
    assert |r| == (if |s| < 5 then |s| else 5);
    PrefixNonIncreasing(sorted, m);
    PrefixDominates(s, sorted, m);
  }

  /** The five languages of the card, as the dictionary holds them. */
  lemma TopLanguagesSelected(t: Tally)
    requires Keyed(t)
    ensures var r := TopLanguages(t);
            && |r| == (if |t.order| < 5 then |t.order| else 5)
            && NonIncreasing(r)
            && multiset(r) <= multiset(Values(t))
            && forall x, k :: x in multiset(Values(t)) - multiset(r) && 0 <= k < |r| ==> x.size <= r[k].size
  {
    TopFiveSelected(Values(t));
  }

  // ---------------------------------------------------------------------------
  // Rows of the card
  // ---------------------------------------------------------------------------

  /** Width of a full bar, in pixels. */
  const BarWidth: real := 120.0

  /** The numeric parts of one row of the card, plus its colour and escaped label. */
  datatype Row = Row(y: int, delayMs: nat, barDelayMs: nat, percentage: real,
                     filledWidth: real, color: string, text: string)

  /** `totalSize > 0 ? (size / totalSize) * 100 : 0`. */
  function Percentage(size: int, totalSize: int): real
  {
    if totalSize > 0 then size as real / totalSize as real * 100.0 else 0.0
  }

  /** The row of the language at position `index`. */
  function RowAt(lang: Language, index: nat, totalSize: int): Row
  {
    var pct := Percentage(lang.size, totalSize);
    Row(65 + index * 25, index * 150, index * 150 + 200, pct, pct / 100.0 * BarWidth,
        StringOr(lang.color, "#ccc"), XmlEscape.Escape(lang.name))
  }

  /** `languages.map((lang, index) => ...)`. */
  function CardRows(langs: seq<Language>, totalSize: int): (r: seq<Row>)
    ensures |r| == |langs|
  {
    seq(|langs|, i requires 0 <= i < |langs| => RowAt(langs[i], i, totalSize))
  }

  /** A language no larger than the total takes between 0% and 100% and fills between 0 and
      120 pixels of its bar; rows are 25 pixels apart from y = 65, appear 150 ms apart and
      start their bar 200 ms after the row; the label is escaped. */
  lemma RowBounds(lang: Language, index: nat, totalSize: int)
    requires 0 <= lang.size <= totalSize || totalSize <= 0
    ensures var row := RowAt(lang, index, totalSize);
            && 0.0 <= row.percentage <= 100.0
            && 0.0 <= row.filledWidth <= BarWidth
            && (totalSize <= 0 ==> row.percentage == 0.0)
            && row.y == 65 + 25 * index
            && row.delayMs == 150 * index && row.barDelayMs == row.delayMs + 200
            && XmlEscape.IsMarkupFree(row.text)
  {
    if totalSize > 0 {
      UnitFraction(lang.size as real, totalSize as real);
    }
  }

  /** A share of a positive whole lies between 0 and 1. */
  lemma UnitFraction(x: real, whole: real)
    requires 0.0 <= x <= whole && whole > 0.0
    ensures 0.0 <= x / whole <= 1.0
  {
    var q := x / whole;
    assert q * whole == x;
  }

  /** Sum of the percentages shown on a list of rows. */
  function TotalPercentage(rows: seq<Row>): real
  {
    if rows == [] then 0.0 else rows[0].percentage + TotalPercentage(rows[1..])
  }

  lemma PercentageAdd(a: int, b: int, t: int)
    requires t > 0
    ensures Percentage(a, t) + Percentage(b, t) == Percentage(a + b, t)
  {
    var x, y := a as real / t as real, b as real / t as real;
    assert x * t as real == a as real && y * t as real == b as real;
    assert (x + y) * t as real == (a + b) as real;
  }

  /** The percentages of rows add up to the percentage of their summed sizes. */
  lemma {:induction false} TotalPercentageIsShare(rows: seq<Row>, langs: seq<Language>, t: int)
    requires t > 0 && |rows| == |langs|
    requires forall i :: 0 <= i < |rows| ==> rows[i].percentage == Percentage(langs[i].size, t)
    ensures TotalPercentage(rows) == Percentage(SumSizes(langs), t)
  {
    if rows != [] {
      TotalPercentageIsShare(rows[1..], langs[1..], t);
      PercentageAdd(langs[0].size, SumSizes(langs[1..]), t);
    }
  }

  /** A prefix of positive sizes never sums to more than the whole sequence, and no single
      size exceeds the sum. */
  lemma {:induction false} PositivePrefixSum(s: seq<Language>, m: nat)
    requires m <= |s|
    requires forall i :: 0 <= i < |s| ==> s[i].size > 0
    ensures 0 <= SumSizes(s[..m]) <= SumSizes(s)
    ensures forall i :: 0 <= i < |s| ==> s[i].size <= SumSizes(s)
  {
    if s != [] {
      PositivePrefixSum(s[1..], if m == 0 then 0 else m - 1);
      if m > 0 {
        assert s[..m][1..] == s[1..][..m - 1];
      }
      forall i | 1 <= i < |s| ensures s[i].size <= SumSizes(s) {
        assert s[1..][i - 1] == s[i];
      }
    }
  }

  /** The card drawn from a valid tally: at most five rows, each percentage within
      [0, 100], each bar within [0, 120] pixels, and the percentages together at most 100. */
  lemma CardRowsBounded(t: Tally)
    requires Valid(t)
    ensures var rows := CardRows(TopLanguages(t), t.total);
            && |rows| <= 5
            && (forall i :: 0 <= i < |rows| ==>
                  0.0 <= rows[i].percentage <= 100.0 && 0.0 <= rows[i].filledWidth <= BarWidth)
            && TotalPercentage(rows) <= 100.0
  {
    var values := Values(t);
    var sorted := SortBySize(values);
    var top := TopLanguages(t);
    assert top == TopFive(values);
    var rows := CardRows(top, t.total);
    var m := |top|;
    assert top == sorted[..m];
    SortedPositive(t);
    PositivePrefixSum(sorted, m);
    assert SumSizes(sorted) == t.total;
    forall i | 0 <= i < |rows|
      ensures 0.0 <= rows[i].percentage <= 100.0 && 0.0 <= rows[i].filledWidth <= BarWidth
    {
      assert top[i] == sorted[i];
      RowBounds(top[i], i, t.total);
    }
    if t.total > 0 {
      TotalPercentageIsShare(rows, top, t.total);
      RowBounds(Language("", None, SumSizes(top)), 0, t.total);
    } else {
      assert SumSizes(sorted) == 0;
      assert |sorted| == 0;
      assert rows == [];
    }
  }

  /** Every language of a valid tally, in sorted order, has a positive size. */
  lemma SortedPositive(t: Tally)
    requires Valid(t)
    ensures forall i :: 0 <= i < |SortBySize(Values(t))| ==> SortBySize(Values(t))[i].size > 0
  {
    var values := Values(t);
    var sorted := SortBySize(values);
    forall i | 0 <= i < |sorted| ensures sorted[i].size > 0 {
      assert sorted[i] in multiset(values);
      var j :| 0 <= j < |values| && values[j] == sorted[i];
    }
  }

  /** End to end: whatever the repositories hold, the card's rows are bounded. */
  lemma CardFromRepos(repos: seq<Repo>)
    ensures var t := TallyOf(EdgesOf(repos));
            && Valid(t)
            && var rows := CardRows(TopLanguages(t), t.total);
            && |rows| <= 5
            && (forall i :: 0 <= i < |rows| ==>
                  0.0 <= rows[i].percentage <= 100.0 && 0.0 <= rows[i].filledWidth <= BarWidth)
            && TotalPercentage(rows) <= 100.0
  {
    TallyValid(EdgesOf(repos));
    CardRowsBounded(TallyOf(EdgesOf(repos)));
  }

  // ---------------------------------------------------------------------------
  // The response
  // ---------------------------------------------------------------------------

  /** The GraphQL answer: its HTTP status, its `errors` array if present (the messages), and
      `data.user.repositories.nodes` if present. */
  datatype Answer = Answer(status: nat, errors: Option<seq<string>>, nodes: Option<seq<Repo>>)

  datatype Response =
    | ErrorCard(status: nat, message: string)   // the error SVG, its status and message
    | Card(rows: seq<Row>)                      // 200, the languages card

  const MissingToken := "Server Error: Missing Token"
  const ApiError := "GitHub API Error"
  const InternalError := "Internal Server Error"

  /** The handler. `answer` is `None` when the request itself fails. A present `errors`
      array selects its first message with status 400; an empty one fails on reading that
      message, which the handler reports as an internal error. */
  function Respond(hasToken: bool, answer: Option<Answer>): (r: Response)
    ensures !hasToken ==> r == ErrorCard(500, MissingToken)
    ensures hasToken && answer.None? ==> r == ErrorCard(500, InternalError)
    ensures hasToken && answer.Some? && !(200 <= answer.value.status <= 299) ==>
              r == ErrorCard(answer.value.status, ApiError)
    ensures hasToken && answer.Some? && 200 <= answer.value.status <= 299 && answer.value.errors.Some? ==>
              r == (if |answer.value.errors.value| > 0 then ErrorCard(400, answer.value.errors.value[0])
                    else ErrorCard(500, InternalError))
    ensures r.ErrorCard? && r.status == 400 && r.message != ApiError ==>
              answer.Some? && answer.value.errors.Some? && |answer.value.errors.value| > 0
              && r.message == answer.value.errors.value[0]
    ensures r.Card? <==>
              hasToken && answer.Some? && 200 <= answer.value.status <= 299 && answer.value.errors.None?
    ensures r.Card? ==>
              var t := TallyOf(EdgesOf(answer.value.nodes.GetOr([])));
              && Valid(t)
              && r.rows == CardRows(TopLanguages(t), t.total)
              && |r.rows| <= 5 && TotalPercentage(r.rows) <= 100.0
  {
    if !hasToken then ErrorCard(500, MissingToken)
    else if answer.None? then ErrorCard(500, InternalError)
    else
      var a := answer.value;
      if !(200 <= a.status <= 299) then ErrorCard(a.status, ApiError)
      else if a.errors.Some? then
        if |a.errors.value| > 0 then ErrorCard(400, a.errors.value[0]) else ErrorCard(500, InternalError)
      else
        var t := TallyOf(EdgesOf(a.nodes.GetOr([])));
        CardFromRepos(a.nodes.GetOr([]));
        Card(CardRows(TopLanguages(t), t.total))
  }
}
