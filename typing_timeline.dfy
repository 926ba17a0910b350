/** The timeline compiler of the typing-animation card: per-line typing durations, the
    running start offset, the cycle length, loop-mode keyframe percentages, step counts and
    the position of every line. Pixel sizes and percentages are exact reals. */
module TypingTimeline {
  import opened Wrappers
  import opened TypingParams

  /** Left margin, and the right margin of right-aligned lines, in pixels. */
  const Margin: real := 20.0

  /** Fixed-width advance of one character: `size * 0.6`. */
  function CharWidth(size: nat): real
  {
    size as real * 0.6
  }

  /** Vertical pitch between baselines: `size * 1.5`. */
  function LineHeight(size: nat): real
  {
    size as real * 1.5
  }

  /** Baseline of the first line: centred on the canvas, or the font size below a 10-pixel
      top margin. */
  function StartY(vCenter: bool, height: nat, size: nat, lineCount: nat): real
  {
    if vCenter then (height as real - lineCount as real * LineHeight(size)) / 2.0 + size as real
    else size as real + 10.0
  }

  /** Horizontal origin of a line of the given rendered width. */
  function XPos(align: string, width: nat, lineWidth: real): real
  {
    if align == "center" then (width as real - lineWidth) / 2.0
    else if align == "right" then width as real - lineWidth - Margin
    else Margin
  }

  /** Steps of the reveal and cursor timing functions: `len || 1`. */
  function Steps(len: nat): nat
  {
    if len == 0 then 1 else len
  }

  /** `lines.map((line) => line.length * duration)`. */
  function LineDurations(lines: seq<string>, msPerChar: nat): seq<nat>
  {
    seq(|lines|, i requires 0 <= i < |lines| => |lines[i]| * msPerChar)
  }

  /** The fold `lineDurations.reduce((a, b) => a + b + pause, acc)`. */
  function ReduceSpans(acc: nat, durs: seq<nat>, pause: nat): nat
    decreases |durs|
  {
    if durs == [] then acc else ReduceSpans(acc + durs[0] + pause, durs[1..], pause)
  }

  /** The cycle length `totalDuration`. */
  function TotalDuration(durs: seq<nat>, pause: nat): nat
  {
    ReduceSpans(0, durs, pause)
  }

  /** Start offset of line `i`: the spans (typing plus pause) of all earlier lines. */
  function Offset(durs: seq<nat>, pause: nat, i: nat): nat
    requires i <= |durs|
  {
    if i == 0 then 0 else Offset(durs, pause, i - 1) + durs[i - 1] + pause
  }

  /** Sum of a sequence of durations. */
  function Sum(xs: seq<nat>): nat
  {
    if xs == [] then 0 else Sum(xs[..|xs| - 1]) + xs[|xs| - 1]
  }

  /** A keyframe stop as JavaScript computes it: `t / total * 100`, which is `NaN` when the
      cycle is empty (only `t == 0` reaches that case, as no offset exceeds the total). */
  datatype Percent = Pct(value: real) | NaN

  function ToPercent(t: nat, total: nat): Percent
  {
    if total == 0 then NaN else Pct(t as real / total as real * 100.0)
  }

  /** The timing of a line's animations. In loop mode: the stops where typing starts, where
      it ends and where the cursor hides, as percentages of one cycle of `cycleMs`. In finite
      mode: absolute delays of the cursor's appearance, of its disappearance (none for the
      last line) and of the start of its blinking. */
  datatype Cue =
    | Looping(startPct: Percent, typeEndPct: Percent, showEndPct: Percent, cycleMs: nat)
    | OneShot(appearMs: nat, disappearMs: Option<nat>, blinkMs: nat)

  /** Everything the handler emits for one line: its start offset, typing duration, step
      count, rendered width, origin and animation cue. */
  datatype LineFrame = LineFrame(
    startMs: nat,
    typingMs: nat,
    steps: nat,
    width: real,
    x: real,
    y: real,
    cue: Cue)

  /** The frame of line `i`, stated from the configuration alone. */
  function FrameAt(cfg: Config, i: nat): LineFrame
    requires i < |cfg.lines|
  {
    var lines := cfg.lines;
    var durs := LineDurations(lines, cfg.msPerChar);
    var total := TotalDuration(durs, cfg.pause);
    var start := Offset(durs, cfg.pause, i);
    var lineWidth := |lines[i]| as real * CharWidth(cfg.size);
    var cue :=
      if cfg.loop then
        Looping(ToPercent(start, total), ToPercent(start + durs[i], total),
                ToPercent(start + durs[i] + cfg.pause, total), total)
      else
        OneShot(start,
                if i < |lines| - 1 then Some(start + durs[i] + cfg.pause) else None,
                start + durs[i]);
    LineFrame(start, durs[i], Steps(|lines[i]|), lineWidth,
              XPos(cfg.align, cfg.width, lineWidth),
              StartY(cfg.vCenter, cfg.height, cfg.size, |lines|) + i as real * LineHeight(cfg.size),
              cue)
  }

  /** The handler's walk over the lines, accumulating `currentDelay`. It produces one frame
      per line, each equal to `FrameAt`, and ends with `currentDelay == totalDuration`. */
  method CompileTimeline(cfg: Config) returns (frames: seq<LineFrame>, totalDuration: nat, currentDelay: nat)
    ensures |frames| == |cfg.lines|
    ensures forall i :: 0 <= i < |frames| ==> frames[i] == FrameAt(cfg, i)
    ensures totalDuration == TotalDuration(LineDurations(cfg.lines, cfg.msPerChar), cfg.pause)
    ensures currentDelay == totalDuration
  {
    var lines := cfg.lines;
    var lineDurations := LineDurations(lines, cfg.msPerChar);
    totalDuration := TotalDuration(lineDurations, cfg.pause);
    var charWidth := CharWidth(cfg.size);
    var lineHeight := LineHeight(cfg.size);
    var startY := StartY(cfg.vCenter, cfg.height, cfg.size, |lines|);
    frames := [];
    currentDelay := 0;
    var i := 0;
    while i < |lines|
      invariant 0 <= i <= |lines|
      invariant currentDelay == Offset(lineDurations, cfg.pause, i)
      invariant |frames| == i
      invariant forall k :: 0 <= k < i ==> frames[k] == FrameAt(cfg, k)
    {
      var len := |lines[i]|;
      var lineDuration := lineDurations[i];
      var lineWidth := len as real * charWidth;
      var cue: Cue;
      if cfg.loop {
        var startPct := ToPercent(currentDelay, totalDuration);
        var typeEndPct := ToPercent(currentDelay + lineDuration, totalDuration);
        var showEndPct := ToPercent(currentDelay + lineDuration + cfg.pause, totalDuration);
        cue := Looping(startPct, typeEndPct, showEndPct, totalDuration);
      } else {
        var disappear := if i < |lines| - 1 then Some(currentDelay + lineDuration + cfg.pause) else None;
        cue := OneShot(currentDelay, disappear, currentDelay + lineDuration);
      }
      var xPos := Margin;
      if cfg.align == "center" {
        xPos := (cfg.width as real - lineWidth) / 2.0;
      } else if cfg.align == "right" {
        xPos := cfg.width as real - lineWidth - Margin;
      }
      var yPos := startY + i as real * lineHeight;
      var frame := LineFrame(currentDelay, lineDuration, if len == 0 then 1 else len,
                             lineWidth, xPos, yPos, cue);
      assert frame == FrameAt(cfg, i);
      frames := frames + [frame];
      currentDelay := currentDelay + lineDuration + cfg.pause;
      i := i + 1;
    }
    TotalIsFinalOffset(lineDurations, cfg.pause);
  }

  // ---------------------------------------------------------------------------
  // Durations and offsets
  // ---------------------------------------------------------------------------

  /** Finishing the fold from the start of line `i` gives the end of the last line. */
  lemma {:induction false} ReduceFromOffset(durs: seq<nat>, pause: nat, i: nat)
    requires i <= |durs|
    ensures ReduceSpans(Offset(durs, pause, i), durs[i..], pause) == Offset(durs, pause, |durs|)
    decreases |durs| - i
  {
    if i < |durs| {
      ReduceFromOffset(durs, pause, i + 1);
      assert durs[i..][0] == durs[i] && durs[i..][1..] == durs[i + 1..];
    }
  }

  /** `totalDuration` is where the line after the last would start. */
  lemma TotalIsFinalOffset(durs: seq<nat>, pause: nat)
    ensures TotalDuration(durs, pause) == Offset(durs, pause, |durs|)
  {
    ReduceFromOffset(durs, pause, 0);
    assert durs[0..] == durs;
  }

  /** The start of line `i` is the sum of the earlier typing durations plus one pause per
      earlier line. */
  lemma {:induction false} OffsetIsSum(durs: seq<nat>, pause: nat, i: nat)
    requires i <= |durs|
    ensures Offset(durs, pause, i) == Sum(durs[..i]) + i * pause
  {
    if i > 0 {
      OffsetIsSum(durs, pause, i - 1);
      assert durs[..i][..i - 1] == durs[..i - 1];
    }
  }

  /** `totalDuration == sum(lineDurations) + n * pause`: the pause after the final line
      is part of the cycle. */
  lemma TotalDurationIsSum(durs: seq<nat>, pause: nat)
    ensures TotalDuration(durs, pause) == Sum(durs) + |durs| * pause
  {
    TotalIsFinalOffset(durs, pause);
    OffsetIsSum(durs, pause, |durs|);
    assert durs[..|durs|] == durs;
  }

  /** Start offsets never decrease. */
  lemma {:induction false} OffsetMonotone(durs: seq<nat>, pause: nat, i: nat, j: nat)
    requires i <= j <= |durs|
    ensures Offset(durs, pause, i) <= Offset(durs, pause, j)
    decreases j - i
  {
    if i < j {
      OffsetMonotone(durs, pause, i, j - 1);
    }
  }

  /** Every line's duration is its length times the per-character duration; consecutive
      lines are contiguous (each starts where the previous one's pause ends), and the last
      line's pause ends the cycle. */
  lemma SegmentsContiguous(cfg: Config, i: nat)
    requires i < |cfg.lines|
    ensures FrameAt(cfg, i).typingMs == |cfg.lines[i]| * cfg.msPerChar
    ensures i + 1 < |cfg.lines| ==>
              FrameAt(cfg, i + 1).startMs == FrameAt(cfg, i).startMs + FrameAt(cfg, i).typingMs + cfg.pause
    ensures i + 1 == |cfg.lines| ==>
              FrameAt(cfg, i).startMs + FrameAt(cfg, i).typingMs + cfg.pause
                == TotalDuration(LineDurations(cfg.lines, cfg.msPerChar), cfg.pause)
  {
    TotalIsFinalOffset(LineDurations(cfg.lines, cfg.msPerChar), cfg.pause);
  }

  // ---------------------------------------------------------------------------
  // Loop mode
  // ---------------------------------------------------------------------------

  /** `a / t * 100` is monotone in `a` and lies in [0, 100] for `0 <= a <= t`. */
  lemma PercentMonotone(a: nat, b: nat, t: nat)
    requires a <= b <= t && t > 0
    ensures 0.0 <= a as real / t as real * 100.0 <= b as real / t as real * 100.0 <= 100.0
    ensures b == t ==> b as real / t as real * 100.0 == 100.0
  {
    var T := t as real;
    var ta := a as real / T;
    var tb := b as real / T;
    FractionBetween(a as real, T);
    FractionBetween(b as real - a as real, T);
    FractionBetween(T - b as real, T);
    DivSub(b as real, a as real, T);
    DivSub(T, b as real, T);
    assert T / T == 1.0;
  }

  /** Division by a positive number distributes over subtraction. */
  lemma DivSub(x: real, y: real, T: real)
    requires T > 0.0
    ensures (x - y) / T == x / T - y / T
  {
    var q, r := x / T, y / T;
    assert q * T == x && r * T == y;
    assert (q - r) * T == x - y;
  }

  /** A non-negative quantity divided by a positive one is non-negative. */
  lemma FractionBetween(x: real, T: real)
    requires x >= 0.0 && T > 0.0
    ensures x / T >= 0.0
  {
  }

  /** In loop mode with a non-empty cycle, each line's stops are ordered,
      `0 <= start <= typeEnd <= showEnd <= 100`; the last line hides its cursor exactly at
      100%, and every other line hides it exactly where the next line starts. */
  lemma LoopPercentagesOrdered(cfg: Config, i: nat)
    requires i < |cfg.lines| && cfg.loop
    requires TotalDuration(LineDurations(cfg.lines, cfg.msPerChar), cfg.pause) > 0
    ensures var c := FrameAt(cfg, i).cue;
            && c.Looping? && c.startPct.Pct? && c.typeEndPct.Pct? && c.showEndPct.Pct?
            && 0.0 <= c.startPct.value <= c.typeEndPct.value <= c.showEndPct.value <= 100.0
            && (i + 1 == |cfg.lines| ==> c.showEndPct.value == 100.0)
            && (i + 1 < |cfg.lines| ==> c.showEndPct == FrameAt(cfg, i + 1).cue.startPct)
  {
    var durs := LineDurations(cfg.lines, cfg.msPerChar);
    var total := TotalDuration(durs, cfg.pause);
    var start := Offset(durs, cfg.pause, i);
    TotalIsFinalOffset(durs, cfg.pause);
    OffsetMonotone(durs, cfg.pause, i + 1, |durs|);
    PercentMonotone(start, start + durs[i], total);
    PercentMonotone(start + durs[i], start + durs[i] + cfg.pause, total);
  }

  /** With an empty cycle (every line empty and no pause) the division is `0 / 0`: every
      stop of every line is `NaN`. */
  lemma LoopPercentagesUndefined(cfg: Config, i: nat)
    requires i < |cfg.lines| && cfg.loop
    requires TotalDuration(LineDurations(cfg.lines, cfg.msPerChar), cfg.pause) == 0
    ensures var c := FrameAt(cfg, i).cue;
            c.Looping? && c.startPct.NaN? && c.typeEndPct.NaN? && c.showEndPct.NaN?
            && c.cycleMs == 0
  {
  }

  // ---------------------------------------------------------------------------
  // Finite mode
  // ---------------------------------------------------------------------------

  /** In finite mode the cursor appears when its line starts and starts blinking when the
      line is typed; every line but the last hides its cursor exactly when the next line
      starts, and the last line's cursor is never hidden. */
  lemma FiniteCursorSchedule(cfg: Config, i: nat)
    requires i < |cfg.lines| && !cfg.loop
    ensures var f := FrameAt(cfg, i);
            && f.cue.OneShot?
            && f.cue.appearMs == f.startMs
            && f.cue.blinkMs == f.startMs + f.typingMs
            && (i + 1 < |cfg.lines| ==> f.cue.disappearMs == Some(FrameAt(cfg, i + 1).startMs))
            && (i + 1 == |cfg.lines| ==> f.cue.disappearMs.None?)
  {
  }

  // ---------------------------------------------------------------------------
  // Steps and placement
  // ---------------------------------------------------------------------------

  /** The step count is the line length, or 1 for an empty line: never zero. */
  lemma StepsNeverZero(cfg: Config, i: nat)
    requires i < |cfg.lines|
    ensures FrameAt(cfg, i).steps >= 1
    ensures |cfg.lines[i]| > 0 ==> FrameAt(cfg, i).steps == |cfg.lines[i]|
    ensures |cfg.lines[i]| == 0 ==> FrameAt(cfg, i).steps == 1 && FrameAt(cfg, i).typingMs == 0
  {
  }

  /** A line is `len * size * 0.6` pixels wide; `center` puts its origin at
      `(width - lineWidth) / 2`, `right` at `width - lineWidth - 20` and anything else at 20,
      independently of the other lines; baselines are `size * 1.5` apart from a start that
      depends only on the centring flag, the height, the size and the number of lines. */
  lemma Placement(cfg: Config, i: nat)
    requires i < |cfg.lines|
    ensures var f := FrameAt(cfg, i);
            var w := |cfg.lines[i]| as real * cfg.size as real * 3.0 / 5.0;
            && f.width == w
            && (cfg.align == "center" ==> f.x == (cfg.width as real - w) / 2.0)
            && (cfg.align == "right" ==> f.x == cfg.width as real - w - 20.0)
            && (cfg.align != "center" && cfg.align != "right" ==> f.x == 20.0)
            && f.y == StartY(cfg.vCenter, cfg.height, cfg.size, |cfg.lines|)
                      + i as real * cfg.size as real * 1.5
            && (i + 1 < |cfg.lines| ==> FrameAt(cfg, i + 1).y - f.y == cfg.size as real * 1.5)
  {
  }

  /** The single line `"Hi"` at size 24, 120 ms per character and a 1000 ms pause: characters
      are 14.4 pixels wide, typing takes 240 ms and the cycle 1240 ms. */
  lemma ExampleSingleLine(cfg: Config)
    requires cfg.lines == ["Hi"] && cfg.size == 24 && cfg.msPerChar == 120 && cfg.pause == 1000
    ensures CharWidth(cfg.size) == 14.4
    ensures FrameAt(cfg, 0).typingMs == 240
    ensures TotalDuration(LineDurations(cfg.lines, cfg.msPerChar), cfg.pause) == 1240
  {
    var durs := LineDurations(cfg.lines, cfg.msPerChar);
    assert durs == [240];
    assert durs[1..] == [];
    assert ReduceSpans(0, durs, cfg.pause) == ReduceSpans(1240, [], cfg.pause);
  }

  /** `"Hi;Yo"` looping with the same timing: a 2480 ms cycle in which the second line
      starts at 50%. */
  lemma ExampleTwoLinesLooping(cfg: Config)
    requires cfg.lines == ["Hi", "Yo"] && cfg.msPerChar == 120 && cfg.pause == 1000 && cfg.loop
    ensures TotalDuration(LineDurations(cfg.lines, cfg.msPerChar), cfg.pause) == 2480
    ensures FrameAt(cfg, 1).cue.startPct == Pct(50.0)
  {
    var durs := LineDurations(cfg.lines, cfg.msPerChar);
    assert durs == [240, 240];
    assert durs[1..] == [240] && durs[1..][1..] == [];
    assert ReduceSpans(0, durs, cfg.pause) == ReduceSpans(1240, [240], cfg.pause);
    assert ReduceSpans(1240, [240], cfg.pause) == ReduceSpans(2480, [], cfg.pause);
    assert Offset(durs, cfg.pause, 1) == 1240;
  }
}
