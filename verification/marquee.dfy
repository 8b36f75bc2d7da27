/** One tick of the indeterminate animation (`printInterBar`): a block of
    indicator cells sweeps left to right across the track, advancing one
    cell per tick. Near the right border the block shrinks, and the cells it
    loses reappear at the left border; once the sweep has passed the border
    it restarts from the left at full size. The animation loop itself, its
    25 ms sleep and its thread are not modelled: `Tick` is one pass of the
    loop body and `Track` is what that pass draws. */
module Marquee {
  import opened Text
  import opened Frames

  /** The full size of the sweeping block (the local `indSize = 10`). */
  const Size := 10

  /** The loop's locals: the sweep position, the current block size, and
      the number of cells drawn at the left border. */
  datatype Marquee = Marquee(pos: int, indSize: int, start: int)

  /** The locals when the loop is entered. */
  const Initial := Marquee(0, Size, 0)

  /** First step of a pass: once the sweep has reached the border, start
      over from the left at full size. */
  function Wrapped(m: Marquee): Marquee {
    if m.pos >= BarWidth then Initial else m
  }

  /** Whether this pass draws cells at the left border (the block has
      already lost cells at the right). */
  predicate Leads(m: Marquee) {
    Wrapped(m).indSize < Size
  }

  /** The locals as the pass draws them: after the wrap, after moving
      `start` to the number of lost cells, and after shrinking the block
      when it would cross the right border. */
  function Drawn(m: Marquee): Marquee {
    var w := Wrapped(m);
    var start := if w.indSize < Size then Size - w.indSize else w.start;
    var size := if w.pos + w.indSize > BarWidth then w.indSize - 1 else w.indSize;
    Marquee(w.pos, size, start)
  }

  /** Four runs, alternating the indicator and blanks, side by side: the
      cell at `i` is the indicator iff it falls in the first or third run. */
  lemma FourRuns(t: string, x: char, k1: nat, k2: nat, k3: nat, k4: nat)
    requires t == Repeat(x, k1) + Repeat(' ', k2) + Repeat(x, k3) + Repeat(' ', k4)
    ensures |t| == k1 + k2 + k3 + k4
    ensures forall i :: 0 <= i < |t| ==>
      t[i] == if i < k1 || k1 + k2 <= i < k1 + k2 + k3 then x else ' '
  {
    var a, b, c, e := Repeat(x, k1), Repeat(' ', k2), Repeat(x, k3), Repeat(' ', k4);
    assert |a| == k1 && |b| == k2 && |c| == k3;
    forall i | 0 <= i < |t|
      ensures t[i] == if i < k1 || k1 + k2 <= i < k1 + k2 + k3 then x else ' '
    {
      if i < k1 {
        assert t[i] == a[i];
      } else if i < k1 + k2 {
        assert t[i] == b[i - k1];
      } else if i < k1 + k2 + k3 {
        assert t[i] == c[i - k1 - k2];
      } else {
        assert t[i] == e[i - k1 - k2 - k3];
      }
    }
  }

  /** The track a pass draws: the cells at the left border (only when the
      block has lost cells), blanks up to the block, the block, and blanks
      up to the right border. From every state the loop can hold, that is
      exactly `BarWidth` cells, with the indicator in the left-border cells
      and in the block and blanks everywhere else. */
  function Track(m: Marquee, indChar: char): (t: string)
    ensures Inv(m) ==> |t| == BarWidth
    ensures Inv(m) ==> forall i :: 0 <= i < BarWidth ==>
      t[i] == if i < Drawn(m).start || Drawn(m).pos <= i < Drawn(m).pos + Drawn(m).indSize then indChar else ' '
  {
    var d := Drawn(m);
    var t := (if Leads(m) then Repeat(indChar, d.start) else [])
      + Repeat(' ', d.pos - d.start)
      + Repeat(indChar, d.indSize)
      + Repeat(' ', BarWidth - (d.pos + d.indSize));
    if Inv(m) then
      DrawnBounds(m);
      FourRuns(t, indChar, d.start, d.pos - d.start, d.indSize, BarWidth - (d.pos + d.indSize));
      t
    else
      t
  }

  /** One pass of the loop body: draw, then advance the sweep by one. */
  function Tick(m: Marquee): (r: Marquee)
    ensures r.pos == Wrapped(m).pos + 1
    ensures m.pos >= BarWidth ==> r == Marquee(1, Size, 0)
    ensures m.pos < BarWidth ==> r.pos == m.pos + 1
  {
    var d := Drawn(m);
    d.(pos := d.pos + 1)
  }

  /** The line a pass writes: the message, the bordered track and the
      running time, then a carriage return. */
  function MarqueeFrame(message: string, indChar: char, runningTime: string, m: Marquee): (r: seq<string>)
    ensures |r| == 2 && r[1] == "\r"
    ensures var k := |message| + 3 + |Track(m, indChar)|;
      && |r[0]| >= k
      && r[0][..|message|] == message
      && r[0][|message|..|message| + 3] == ": |"
      && r[0][|message| + 3..k] == Track(m, indChar)
      && r[0][k..] == "| [" + runningTime + "]"
  {
    var tail := "| [" + runningTime + "]";
    var line := message + ": |" + Track(m, indChar) + tail;
    SplitFour(line, message, ": |", Track(m, indChar), tail);
    [line, "\r"]
  }

  /** The locals the loop holds at the top of a pass with sweep position
      `p`: the full block up to position 26, then a block that has lost
      `p - 26` cells, `p - 27` of which were already drawn at the left. */
  function At(p: int): (m: Marquee)
    requires 0 <= p <= BarWidth
    ensures m.pos == p
  {
    if p <= BarWidth - Size + 1 then Marquee(p, Size, 0)
    else Marquee(p, BarWidth + 1 - p, p - (BarWidth - Size + 2))
  }

  /** The states the loop can hold at the top of a pass. */
  predicate Inv(m: Marquee) {
    0 <= m.pos <= BarWidth && m == At(m.pos)
  }

  lemma InitialInv()
    ensures Inv(Initial)
  {
  }

  /** A pass moves the loop from one top-of-pass state to the next: the
      sweep advances by one and, after position 35, comes back at 1. */
  lemma TickAt(p: int)
    requires 0 <= p <= BarWidth
    ensures Tick(At(p)) == At(if p == BarWidth then 1 else p + 1)
  {
  }

  /** `Inv` is preserved by every pass. */
  lemma TickPreservesInv(m: Marquee)
    requires Inv(m)
    ensures Inv(Tick(m))
  {
    TickAt(m.pos);
  }

  /** What a pass draws stays inside the track: the block ends at or before
      the right border, is never empty, and the cells at the left border end
      before the sweep position. */
  lemma DrawnBounds(m: Marquee)
    requires Inv(m)
    ensures var d := Drawn(m);
      && 1 <= d.indSize <= Size
      && d.pos + d.indSize <= BarWidth
      && 0 <= d.start <= d.pos
      && (Leads(m) || d.start == 0)
  {
  }

  /** The number of indicator cells drawn: the full block until it first
      touches the border, one fewer from then until the wrap. */
  lemma LitCells(m: Marquee)
    requires Inv(m)
    ensures Drawn(m).start + Drawn(m).indSize
         == if Wrapped(m).pos <= BarWidth - Size then Size else Size - 1
  {
  }

  /** The loop's locals after `n` passes. */
  function After(n: nat): Marquee {
    if n == 0 then Initial else Tick(After(n - 1))
  }

  /** The sweep position after `n` passes follows from the one after
      `n - 1` passes as a single pass moves it. */
  lemma SweepStep(n: nat)
    requires n >= 2
    ensures var p := 1 + (n - 2) % BarWidth;
      1 + (n - 1) % BarWidth == if p == BarWidth then 1 else p + 1
  {
  }

  lemma ModPeriod(x: nat)
    ensures (x + BarWidth) % BarWidth == x % BarWidth
  {
  }

  /** After `n >= 1` passes the sweep stands at `1 + (n - 1) % BarWidth`. */
  lemma {:induction false} AfterClosedForm(n: nat)
    requires n >= 1
    ensures After(n) == At(1 + (n - 1) % BarWidth)
    decreases n
  {
    if n == 1 {
      TickAt(0);
    } else {
      var p := 1 + (n - 2) % BarWidth;
      SweepStep(n);
      AfterClosedForm(n - 1);
      TickAt(p);
    }
  }

  /** Every state the loop reaches satisfies `Inv`. */
  lemma AfterInv(n: nat)
    ensures Inv(After(n))
  {
    if n >= 1 {
      AfterClosedForm(n);
    }
  }

  /** From the first pass on, the animation repeats every `BarWidth` passes. */
  lemma AfterPeriodic(n: nat)
    requires n >= 1
    ensures After(n + BarWidth) == After(n)
  {
    var k := n - 1;
    calc {
      After(n + BarWidth);
      { AfterClosedForm(n + BarWidth); }
      At(1 + (k + BarWidth) % BarWidth);
      { ModPeriod(k); }
      At(1 + k % BarWidth);
      { AfterClosedForm(n); }
      After(n);
    }
  }
}
