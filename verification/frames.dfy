/** The rendered lines of the progress bar: the determinate frame
    (`printProgressBar`) and the two terminal frames (`finishProgress`,
    `finishIntermediate`). Each frame is the sequence of strings written to
    the error stream, in order. */
module Frames {
  import opened Text

  /** The number of cells in the track between the two '|' borders. */
  const BarWidth := 35

  /** The line break `println("")` writes. */
  const NewLine := "\n"

  /** The number of filled cells for `current` out of `max`: the floor of
      `BarWidth * current / max`. */
  function Fill(current: int, max: int): (n: nat)
    requires 0 < max && 0 <= current <= max
    ensures n <= BarWidth
    ensures n * max <= BarWidth * current < (n + 1) * max
  {
    BarWidth * current / max
  }

  /** The percentage shown after the track, as an integer floor. */
  function Percent(current: int, max: int): (p: nat)
    requires 0 < max && 0 <= current <= max
    ensures p <= 100
    ensures p * max <= 100 * current < (p + 1) * max
  {
    100 * current / max
  }

  /** The inputs on which `printProgressBar` finishes writing a frame of
      the documented shape: a value in [0, max] of a positive maximum, or 0
      of 0 (the state of a bar whose maximum was never set), where both
      casts of the NaN quotient give 0. */
  predicate Renders(current: int, max: int) {
    (0 < max && 0 <= current <= max) || (max == 0 && current == 0)
  }

  /** The determinate track: `Fill` copies of the indicator, then blanks;
      all blank at 0 of 0. */
  function ProgressTrack(indChar: char, current: int, max: int): (t: string)
    requires Renders(current, max)
    ensures |t| == BarWidth
    ensures forall i :: 0 <= i < BarWidth ==>
      t[i] == if 0 < max && i < Fill(current, max) then indChar else ' '
  {
    var n := if max == 0 then 0 else Fill(current, max);
    Repeat(indChar, n) + Repeat(' ', BarWidth - n)
  }

  /** The percentage a rendered frame shows: 0 at 0 of 0. */
  function ShownPercent(current: int, max: int): (p: nat)
    requires Renders(current, max)
    ensures p <= 100
    ensures max == 0 ==> p == 0
    ensures 0 < max ==> p * max <= 100 * current < (p + 1) * max
  {
    if max == 0 then 0 else Percent(current, max)
  }

  /** `printProgressBar`: the message, the bordered track, the percentage
      with trailing blanks that erase a longer previous line, and a carriage
      return so that the next frame overwrites this one. With a stored
      message of fixed width the track therefore stays in one column. */
  function ProgressFrame(message: string, indChar: char, current: int, max: int): (r: seq<string>)
    requires Renders(current, max)
    ensures |r| == 2 && r[1] == "\r"
    ensures |r[0]| > |message| + 3 + BarWidth
    ensures r[0][..|message|] == message
    ensures r[0][|message|..|message| + 3] == ": |"
    ensures r[0][|message| + 3..|message| + 3 + BarWidth] == ProgressTrack(indChar, current, max)
    ensures r[0][|message| + 3 + BarWidth..]
         == "| " + Decimal(ShownPercent(current, max)) + "%          "
  {
    var tail := "| " + Decimal(ShownPercent(current, max)) + "%          ";
    var line := message + ": |" + ProgressTrack(indChar, current, max) + tail;
    SplitFour(line, message, ": |", ProgressTrack(indChar, current, max), tail);
    [line, "\r"]
  }

  /** The track of a terminal frame: every cell filled, between borders. */
  function FullTrack(indChar: char): (t: string)
    ensures |t| == BarWidth + 2
    ensures t[0] == '|' && t[BarWidth + 1] == '|'
    ensures forall i :: 1 <= i <= BarWidth ==> t[i] == indChar
  {
    "|" + Repeat(indChar, BarWidth) + "|"
  }

  /** `finishProgress`: the message, a full track, "100%" and the total
      running time, followed by a line break when `newLine` is set. */
  function FinishProgressFrame(message: string, indChar: char, runningTime: string, newLine: bool): (r: seq<string>)
    ensures |r| == if newLine then 2 else 1
    ensures newLine ==> r[1] == NewLine
    ensures |r[0]| >= |message| + BarWidth + 4
    ensures r[0][..|message|] == message
    ensures r[0][|message|..|message| + 2] == ": "
    ensures r[0][|message| + 2..|message| + BarWidth + 4] == FullTrack(indChar)
    ensures r[0][|message| + BarWidth + 4..] == " 100% [Total: " + runningTime + "]     "
  {
    var tail := " 100% [Total: " + runningTime + "]     ";
    var line := message + ": " + FullTrack(indChar) + tail;
    SplitFour(line, message, ": ", FullTrack(indChar), tail);
    [line] + (if newLine then [NewLine] else [])
  }

  /** `finishIntermediate`: a carriage return, the message, a full track
      and the running time, followed by a line break when `newLine` is
      set. */
  function FinishIntermediateFrame(message: string, indChar: char, runningTime: string, newLine: bool): (r: seq<string>)
    ensures |r| == if newLine then 2 else 1
    ensures newLine ==> r[1] == NewLine
    ensures |r[0]| >= |message| + BarWidth + 5
    ensures r[0][0] == '\r'
    ensures r[0][1..|message| + 1] == message
    ensures r[0][|message| + 1..|message| + 3] == ": "
    ensures r[0][|message| + 3..|message| + BarWidth + 5] == FullTrack(indChar)
    ensures r[0][|message| + BarWidth + 5..] == " [" + runningTime + "]     "
  {
    var tail := " [" + runningTime + "]     ";
    var line := "\r" + message + ": " + FullTrack(indChar) + tail;
    SplitFour(line[1..], message, ": ", FullTrack(indChar), tail);
    [line] + (if newLine then [NewLine] else [])
  }

  lemma MulMonotone(a: int, b: int, m: int)
    requires 0 < m && a * m < (b + 1) * m
    ensures a <= b
  {
  }

  /** More progress never shows fewer filled cells. */
  lemma FillMonotone(c1: int, c2: int, max: int)
    requires 0 < max && 0 <= c1 <= c2 <= max
    ensures Fill(c1, max) <= Fill(c2, max)
  {
    var n1, n2 := Fill(c1, max), Fill(c2, max);
    assert BarWidth * c1 <= BarWidth * c2;
    MulMonotone(n1, n2, max);
  }

  /** The percentage never decreases as progress grows. */
  lemma PercentMonotone(c1: int, c2: int, max: int)
    requires 0 < max && 0 <= c1 <= c2 <= max
    ensures Percent(c1, max) <= Percent(c2, max)
  {
    var p1, p2 := Percent(c1, max), Percent(c2, max);
    assert 100 * c1 <= 100 * c2;
    MulMonotone(p1, p2, max);
  }

  /** The track is full exactly at `current == max`, and the percentage
      reads 100 exactly there too. */
  lemma FullExactlyAtMax(current: int, max: int)
    requires 0 < max && 0 <= current <= max
    ensures Fill(current, max) == BarWidth <==> current == max
    ensures Percent(current, max) == 100 <==> current == max
  {
    var n, p := Fill(current, max), Percent(current, max);
    if current == max {
      assert BarWidth * max < (n + 1) * max;
      MulMonotone(BarWidth, n, max);
      assert 100 * max < (p + 1) * max;
      MulMonotone(100, p, max);
    }
  }

  /** The track is empty exactly while `current` is below one cell's worth. */
  lemma EmptyExactlyBelowOneCell(current: int, max: int)
    requires 0 < max && 0 <= current <= max
    ensures Fill(current, max) == 0 <==> BarWidth * current < max
  {
  }

  lemma TrackAtMax(indChar: char, max: int)
    requires 0 < max
    ensures ProgressTrack(indChar, max, max) == Repeat(indChar, BarWidth)
    ensures ShownPercent(max, max) == 100
  {
    FullExactlyAtMax(max, max);
    assert ProgressTrack(indChar, max, max) == Repeat(indChar, BarWidth) + [];
  }

  lemma TrackAtZero(indChar: char, max: int)
    requires 0 <= max
    ensures ProgressTrack(indChar, 0, max) == Repeat(' ', BarWidth)
    ensures ShownPercent(0, max) == 0
  {
    assert max > 0 ==> Fill(0, max) == 0 && Percent(0, max) == 0;
    assert ProgressTrack(indChar, 0, max) == [] + Repeat(' ', BarWidth);
  }

  /** The frame at `current == max`: every cell filled and "100%". */
  lemma ProgressFrameAtMax(message: string, indChar: char, max: int)
    requires 0 < max
    ensures ProgressFrame(message, indChar, max, max)
         == [message + ": |" + Repeat(indChar, BarWidth) + "| 100%          ", "\r"]
  {
    TrackAtMax(indChar, max);
    assert Decimal(1) == "1";
    assert Decimal(10) == "10";
    assert Decimal(100) == "100";
    assert "| " + Decimal(100) + "%          " == "| 100%          ";
  }

  /** The frame at `current == 0`, including 0 of 0: every cell blank and
      "0%". */
  lemma ProgressFrameAtZero(message: string, indChar: char, max: int)
    requires 0 <= max
    ensures ProgressFrame(message, indChar, 0, max)
         == [message + ": |" + Repeat(' ', BarWidth) + "| 0%          ", "\r"]
  {
    TrackAtZero(indChar, max);
    assert Decimal(0) == "0";
    assert "| " + Decimal(0) + "%          " == "| 0%          ";
  }

  /** The progressable terminal frame repeats the determinate frame at 100%
      up to and including "100%", then adds the total running time. */
  lemma FinishProgressExtendsFullFrame(message: string, indChar: char, max: int, runningTime: string, newLine: bool)
    requires 0 < max
    ensures var k := |message| + 3 + BarWidth + 6;
      var full := ProgressFrame(message, indChar, max, max)[0];
      var fin := FinishProgressFrame(message, indChar, runningTime, newLine)[0];
      && |full| >= k && |fin| >= k
      && fin[..k] == full[..k]
      && fin[k..] == " [Total: " + runningTime + "]     "
  {
    ProgressFrameAtMax(message, indChar, max);
    var prefix := message + ": |" + Repeat(indChar, BarWidth) + "| 100%";
    var full := ProgressFrame(message, indChar, max, max)[0];
    var fin := FinishProgressFrame(message, indChar, runningTime, newLine)[0];
    assert full == prefix + "          ";
    assert message + ": " + FullTrack(indChar) == message + ": |" + Repeat(indChar, BarWidth) + "|";
    assert fin == prefix + " [Total: " + runningTime + "]     ";
    assert fin[..|prefix|] == prefix == full[..|prefix|];
  }

  /** The two terminal frames for the same message and time are different
      output, so a caller can tell which mode was finished. */
  lemma TerminalFramesDiffer(message: string, indChar: char, runningTime: string, newLine: bool)
    ensures FinishProgressFrame(message, indChar, runningTime, newLine)
         != FinishIntermediateFrame(message, indChar, runningTime, newLine)
  {
    var p := FinishProgressFrame(message, indChar, runningTime, newLine);
    var q := FinishIntermediateFrame(message, indChar, runningTime, newLine);
    assert |p[0]| == |message| + |runningTime| + 59;
    assert |q[0]| == |message| + |runningTime| + 48;
  }
}
