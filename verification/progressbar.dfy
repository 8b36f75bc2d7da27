/** The controller (`ProgressBar`): the bar's state, the public operations
    that change it, and the text each operation writes to the error stream.
    Every operation is a pure function from the old state to a `Step`: the
    new state, the strings written in order, and the exception thrown, if
    any (an operation that throws leaves the state as it was). The elapsed
    time since the stopwatch start is passed in wherever the source reads
    the clock. */
module ProgressBar {
  import opened Results
  import opened Text
  import opened Stopwatch
  import Message
  import opened Frames
  import Marquee

  /** The initial values of the public mode fields (which the source does
      not declare `final`). */
  const IntermediateMode := 0
  const ProgressableMode := 1

  /** The initial values of the preset indicator characters. */
  const Sign1 := '|'
  const Sign2 := '='
  const Sign3 := '\\'
  const Sign4 := '#'

  datatype Mode = Intermediate | Progressable

  function ModeCode(m: Mode): (code: int)
    ensures code == IntermediateMode || code == ProgressableMode
    ensures (code == IntermediateMode) == m.Intermediate?
  {
    match m
    case Intermediate => IntermediateMode
    case Progressable => ProgressableMode
  }

  /** The fields of one progress bar. `indicate` keeps the animation loop
      running; `finished` is set by `finish` and read nowhere. */
  datatype Bar = Bar(
    mode: Mode,
    current: int,
    max: int,
    quiet: bool,
    indicate: bool,
    finished: bool,
    indChar: char,
    message: string,
    clock: Clock)

  /** The result of one operation. */
  datatype Step = Step(bar: Bar, out: seq<string>, thrown: Option<Error>)

  /** The field initialisers, before a constructor body runs. */
  const Fresh := Bar(Intermediate, 0, 0, false, false, false, Sign1, "", Unset)

  /** Every constructed bar keeps its message in the fixed-width column. */
  predicate Valid(b: Bar) {
    Message.Normal(b.message)
  }

  /** Two states that agree on everything except the stopwatch and the
      quiet flag. */
  predicate SameProgress(a: Bar, b: Bar) {
    && a.mode == b.mode && a.current == b.current && a.max == b.max
    && a.indicate == b.indicate && a.finished == b.finished
    && a.indChar == b.indChar && a.message == b.message
  }

  // ---------------------------------------------------------------------
  // Constructors

  /** `ProgressBar(message)`: an intermediate bar whose animation may run.
      A message longer than the column makes the constructor throw. */
  function New(message: string): (r: Result<Bar>)
    ensures r.Ok? <==> |message| <= Message.Width
    ensures r.Err? ==> r.error == MessageOverflow
    ensures r.Ok? ==> Valid(r.value) && r.value.message[..|message|] == message
    ensures r.Ok? ==> && r.value.mode == Intermediate && r.value.indicate
                      && !r.value.quiet && !r.value.finished
                      && r.value.current == 0 && r.value.max == 0
                      && r.value.indChar == Sign1 && r.value.clock == Unset
    ensures r.Ok? ==> forall i :: |message| <= i < Message.Width ==> r.value.message[i] == ' '
    ensures r.Ok? ==> Message.Normalize(message) == Ok(r.value.message)
  {
    var s := SetMessage(Fresh, message);
    if s.thrown.Some? then Err(s.thrown.value) else Ok(s.bar.(indicate := true))
  }

  /** `ProgressBar(max, message)`: documented as creating a progressable
      bar, but its body switches to the intermediate mode (without a
      terminal frame), so the bar ends up intermediate with the given
      maximum and the stopwatch reset. The source swallows any exception of
      that switch; none can occur for mode 0. */
  function NewWithMax(max: int, message: string): (r: Result<Bar>)
    ensures r.Ok? <==> |message| <= Message.Width
    ensures r.Err? ==> r.error == MessageOverflow
    ensures r.Ok? ==> Valid(r.value) && r.value.message[..|message|] == message
    ensures r.Ok? ==> && r.value.mode == Intermediate && r.value.max == max
                      && r.value.indicate && !r.value.quiet && !r.value.finished
                      && r.value.current == 0 && r.value.clock == Cleared
                      && r.value.indChar == Sign1
    ensures r.Ok? ==> forall i :: |message| <= i < Message.Width ==> r.value.message[i] == ' '
    ensures r.Ok? ==> Message.Normalize(message) == Ok(r.value.message)
  {
    var b :- New(message);
    var s := SetProgressMode(b.(max := max), IntermediateMode, false, 0);
    Ok(s.bar)
  }

  // ---------------------------------------------------------------------
  // Setters

  /** `setMaxVal`: the maximum is stored as given, without validation. */
  function SetMaxVal(b: Bar, max: int): (r: Step)
    ensures r.thrown.None? && r.out == []
    ensures r.bar.max == max
    ensures r.bar == b.(max := r.bar.max)
  {
    Step(b.(max := max), [], None)
  }

  /** `setQuietMode`: suppresses rendering; the progress and the stopwatch
      are left as they are. */
  function SetQuietMode(b: Bar, quiet: bool): (r: Step)
    ensures r.thrown.None? && r.out == []
    ensures r.bar.quiet == quiet
    ensures SameProgress(r.bar, b) && r.bar.clock == b.clock
  {
    Step(b.(quiet := quiet), [], None)
  }

  /** `setIndicatorCharater`: the glyph of every later frame; the progress,
      mode, message and stopwatch are untouched. */
  function SetIndicatorCharacter(b: Bar, indChar: char): (r: Step)
    ensures r.thrown.None? && r.out == []
    ensures r.bar.indChar == indChar
    ensures r.bar.quiet == b.quiet && r.bar.clock == b.clock
    ensures SameProgress(r.bar, b.(indChar := indChar))
  {
    Step(b.(indChar := indChar), [], None)
  }

  /** `setMessage`: stores the message padded to the column, or throws
      "MessageOverflow" and keeps the old one. */
  function SetMessage(b: Bar, message: string): (r: Step)
    ensures r.out == []
    ensures r.thrown.Some? <==> |message| > Message.Width
    ensures r.thrown.Some? ==> r.thrown.value == MessageOverflow && r.bar == b
    ensures r.thrown.None? ==> && r.bar == b.(message := r.bar.message)
                               && Message.Normal(r.bar.message)
                               && r.bar.message[..|message|] == message
    ensures r.thrown.None? ==> forall i :: |message| <= i < Message.Width ==> r.bar.message[i] == ' '
    ensures r.thrown.None? ==> Message.Normalize(message) == Ok(r.bar.message)
  {
    match Message.Normalize(message)
    case Ok(m) => Step(b.(message := m), [], None)
    case Err(e) => Step(b, [], Some(e))
  }

  // ---------------------------------------------------------------------
  // Private helpers: reset, the terminal frames, the determinate frame

  /** `reset`: the progress goes back to 0 and the stopwatch is cleared. */
  function Reset(b: Bar): (r: Bar)
    ensures r.current == 0 && r.clock == Cleared
    ensures r == b.(current := 0, clock := r.clock)
  {
    b.(current := 0, clock := Cleared)
  }

  /** `finishProgress`: forces the progress to the maximum, samples the
      stopwatch and, unless quiet, writes the progressable terminal frame. */
  function FinishProgress(b: Bar, newLine: bool, elapsedMs: nat): (r: Step)
    ensures r.thrown.None?
    ensures r.bar == b.(current := b.max, clock := TakeTime(elapsedMs))
    ensures r.out == if b.quiet then [] else FinishProgressFrame(b.message, b.indChar, RunningTime(elapsedMs), newLine)
  {
    var b1 := b.(current := b.max, clock := TakeTime(elapsedMs));
    var out := if b1.quiet then [] else FinishProgressFrame(b1.message, b1.indChar, b1.clock.runningTime.value, newLine);
    Step(b1, out, None)
  }

  /** `finishIntermediate`: stops the animation, samples the stopwatch
      and, unless quiet, writes the intermediate terminal frame. */
  function FinishIntermediate(b: Bar, newLine: bool, elapsedMs: nat): (r: Step)
    ensures r.thrown.None?
    ensures r.bar == b.(indicate := false, clock := TakeTime(elapsedMs))
    ensures r.out == if b.quiet then [] else FinishIntermediateFrame(b.message, b.indChar, RunningTime(elapsedMs), newLine)
  {
    var b1 := b.(indicate := false, clock := TakeTime(elapsedMs));
    var out := if b1.quiet then [] else FinishIntermediateFrame(b1.message, b1.indChar, b1.clock.runningTime.value, newLine);
    Step(b1, out, None)
  }

  /** `printProgressBar`: samples the stopwatch and writes one determinate
      frame. The frame is defined where `Renders` holds; the source never
      checks it, and on some inputs outside it never finishes writing. */
  function PrintProgressBar(b: Bar, elapsedMs: nat): (r: Step)
    requires Renders(b.current, b.max)
    ensures r.thrown.None?
    ensures r.bar == b.(clock := TakeTime(elapsedMs))
    ensures r.out == ProgressFrame(b.message, b.indChar, b.current, b.max)
  {
    Step(b.(clock := TakeTime(elapsedMs)), ProgressFrame(b.message, b.indChar, b.current, b.max), None)
  }

  // ---------------------------------------------------------------------
  // Public operations

  /** `setProgressMode(mode, finish)`. A code other than 0 or 1 throws
      "IllegalProgressMode" and changes nothing. Switching to progressable
      stops the animation when coming from intermediate and, only then,
      writes the intermediate terminal frame (if asked and not quiet).
      Switching to intermediate writes the progressable terminal frame
      whenever asked and not quiet, whatever the previous mode. Either way
      the new mode is adopted and the bar is reset. */
  function SetProgressMode(b: Bar, code: int, finish: bool, elapsedMs: nat): (r: Step)
    ensures r.thrown.Some? <==> code != IntermediateMode && code != ProgressableMode
    ensures r.thrown.Some? ==> r.thrown.value == IllegalProgressMode && r.bar == b && r.out == []
    ensures r.thrown.None? ==> && ModeCode(r.bar.mode) == code
                               && r.bar.current == 0 && r.bar.clock == Cleared
                               && r.bar.max == b.max && r.bar.quiet == b.quiet
                               && r.bar.indChar == b.indChar && r.bar.message == b.message
                               && r.bar.finished == b.finished
    ensures code == ProgressableMode ==> r.bar.indicate == (b.indicate && b.mode == Progressable)
    ensures code == IntermediateMode ==> r.bar.indicate == b.indicate
    ensures code == ProgressableMode ==>
      r.out == if b.mode == Intermediate && !b.quiet && finish
               then FinishIntermediateFrame(b.message, b.indChar, RunningTime(elapsedMs), true)
               else []
    ensures code == IntermediateMode ==>
      r.out == if !b.quiet && finish
               then FinishProgressFrame(b.message, b.indChar, RunningTime(elapsedMs), true)
               else []
  {
    if code == ProgressableMode then
      var b1 := if b.mode == Intermediate then b.(indicate := false) else b;
      var s := if b1.mode == Intermediate && !b1.quiet && finish
               then FinishIntermediate(b1, true, elapsedMs)
               else Step(b1, [], None);
      Step(Reset(s.bar.(mode := Progressable)), s.out, None)
    else if code == IntermediateMode then
      var s := if !b.quiet && finish
               then FinishProgress(b, true, elapsedMs)
               else Step(b, [], None);
      Step(Reset(s.bar.(mode := Intermediate)), s.out, None)
    else
      Step(b, [], Some(IllegalProgressMode))
  }

  /** `setCurrentVal`: stores the value as given (no clamping) and, unless
      quiet, writes one determinate frame. */
  function SetCurrentVal(b: Bar, value: int, elapsedMs: nat): (r: Step)
    requires b.quiet || Renders(value, b.max)
    ensures r.thrown.None? && r.bar.current == value
    ensures r.bar == b.(current := value, clock := r.bar.clock)
    ensures b.quiet ==> r.out == [] && r.bar.clock == b.clock
    ensures !b.quiet ==> && r.out == ProgressFrame(b.message, b.indChar, value, b.max)
                         && r.bar.clock == TakeTime(elapsedMs)
  {
    var b1 := b.(current := value);
    if b1.quiet then Step(b1, [], None) else PrintProgressBar(b1, elapsedMs)
  }

  /** `finish(newLine)`: marks the bar finished, writes the terminal frame
      of the current mode (nothing when quiet), stops the animation in the
      intermediate mode, and resets; so the progress ends at 0, not at the
      maximum `finishProgress` set on the way. */
  function Finish(b: Bar, newLine: bool, elapsedMs: nat): (r: Step)
    ensures r.thrown.None?
    ensures r.bar.finished && r.bar.current == 0 && r.bar.clock == Cleared
    ensures && r.bar.mode == b.mode && r.bar.max == b.max && r.bar.quiet == b.quiet
            && r.bar.indChar == b.indChar && r.bar.message == b.message
    ensures r.bar.indicate == (b.indicate && b.mode == Progressable)
    ensures r.out == if b.quiet then []
                     else if b.mode == Intermediate
                     then FinishIntermediateFrame(b.message, b.indChar, RunningTime(elapsedMs), newLine)
                     else FinishProgressFrame(b.message, b.indChar, RunningTime(elapsedMs), newLine)
    ensures |r.out| == if b.quiet then 0 else if newLine then 2 else 1
  {
    var b1 := b.(finished := true);
    var s := if b1.mode == Intermediate
             then FinishIntermediate(b1, newLine, elapsedMs)
             else FinishProgress(b1, newLine, elapsedMs);
    assert s.bar.indicate == (b.indicate && b.mode.Progressable?);
    Step(Reset(s.bar), s.out, None)
  }

  // ---------------------------------------------------------------------
  // The animation thread

  /** What the thread started by `start` does. */
  datatype Dispatch = RunMarquee | RenderProgress | Idle

  /** The body of the thread in `startThread`. Its `else` binds to the inner
      `if (!quiet)`, so the determinate branch is only reached when quiet,
      where it draws nothing; a progressable bar's thread does nothing. */
  function StartThread(b: Bar): (d: Dispatch)
    ensures d == RunMarquee <==> b.mode == Intermediate && !b.quiet
    ensures d != RenderProgress
  {
    if b.mode == Intermediate then
      if !b.quiet then RunMarquee
      else if !b.quiet then RenderProgress
      else Idle
    else Idle
  }

  /** The animation loop's state after one pass. */
  datatype Pass = Pass(bar: Bar, marquee: Marquee.Marquee, out: seq<string>)

  /** One pass of the `while (indicate)` loop: `None` when the loop guard
      is false; otherwise the stopwatch is sampled, one marquee frame is
      written (quiet is not consulted inside the loop) and the marquee
      advances. */
  function MarqueePass(b: Bar, m: Marquee.Marquee, elapsedMs: nat): (r: Option<Pass>)
    ensures r.None? <==> !b.indicate
    ensures r.Some? ==> && r.value.bar == b.(clock := TakeTime(elapsedMs))
                        && r.value.marquee == Marquee.Tick(m)
                        && r.value.out == Marquee.MarqueeFrame(b.message, b.indChar, RunningTime(elapsedMs), m)
  {
    if !b.indicate then None
    else
      var b1 := b.(clock := TakeTime(elapsedMs));
      Some(Pass(b1, Marquee.Tick(m), Marquee.MarqueeFrame(b1.message, b1.indChar, b1.clock.runningTime.value, m)))
  }

  // ---------------------------------------------------------------------
  // Sequences of operations

  /** One call of a public operation on an existing bar. */
  datatype Call =
    | CallSetMaxVal(max: int)
    | CallSetQuietMode(quiet: bool)
    | CallSetIndicatorCharacter(indChar: char)
    | CallSetMessage(message: string)
    | CallSetProgressMode(code: int, finish: bool, elapsedMs: nat)
    | CallSetCurrentVal(value: int, elapsedMs: nat)
    | CallFinish(newLine: bool, elapsedMs: nat)

  /** A call whose frame is defined: only `setCurrentVal` needs its value
      in range, and only when it renders. */
  predicate Admissible(b: Bar, c: Call) {
    c.CallSetCurrentVal? ==> b.quiet || Renders(c.value, b.max)
  }

  function Apply(b: Bar, c: Call): Step
    requires Admissible(b, c)
  {
    match c
    case CallSetMaxVal(max) => SetMaxVal(b, max)
    case CallSetQuietMode(quiet) => SetQuietMode(b, quiet)
    case CallSetIndicatorCharacter(ch) => SetIndicatorCharacter(b, ch)
    case CallSetMessage(message) => SetMessage(b, message)
    case CallSetProgressMode(code, finish, t) => SetProgressMode(b, code, finish, t)
    case CallSetCurrentVal(value, t) => SetCurrentVal(b, value, t)
    case CallFinish(newLine, t) => Finish(b, newLine, t)
  }

  predicate AdmissibleRun(b: Bar, calls: seq<Call>)
    decreases |calls|
  {
    |calls| == 0 || (Admissible(b, calls[0]) && AdmissibleRun(Apply(b, calls[0]).bar, calls[1..]))
  }

  /** The state after a sequence of calls; a call that throws leaves the
      state as it was and the caller carries on. */
  function Run(b: Bar, calls: seq<Call>): Bar
    requires AdmissibleRun(b, calls)
    decreases |calls|
  {
    if |calls| == 0 then b else Run(Apply(b, calls[0]).bar, calls[1..])
  }

  // ---------------------------------------------------------------------
  // Properties

  /** Every operation keeps the message in its fixed-width column. */
  lemma ApplyPreservesValid(b: Bar, c: Call)
    requires Valid(b) && Admissible(b, c)
    ensures Valid(Apply(b, c).bar)
  {
  }

  lemma {:induction false} RunPreservesValid(b: Bar, calls: seq<Call>)
    requires Valid(b) && AdmissibleRun(b, calls)
    ensures Valid(Run(b, calls))
    decreases |calls|
  {
    if |calls| > 0 {
      ApplyPreservesValid(b, calls[0]);
      RunPreservesValid(Apply(b, calls[0]).bar, calls[1..]);
    }
  }

  /** No operation sets `indicate`; only the constructors do. */
  lemma IndicateNeverRises(b: Bar, c: Call)
    requires Admissible(b, c) && !b.indicate
    ensures !Apply(b, c).bar.indicate
  {
  }

  /** Once `indicate` is off, no sequence of operations turns it back on,
      so the animation loop can never run another pass. */
  lemma {:induction false} MarqueeStaysStopped(b: Bar, calls: seq<Call>, m: Marquee.Marquee, elapsedMs: nat)
    requires AdmissibleRun(b, calls) && !b.indicate
    ensures !Run(b, calls).indicate
    ensures MarqueePass(Run(b, calls), m, elapsedMs).None?
    decreases |calls|
  {
    if |calls| > 0 {
      IndicateNeverRises(b, calls[0]);
      MarqueeStaysStopped(Apply(b, calls[0]).bar, calls[1..], m, elapsedMs);
    }
  }

  /** Leaving the intermediate mode, or finishing it, stops the animation
      for good. */
  lemma LeavingIntermediateStopsMarquee(b: Bar, finish: bool, newLine: bool, t: nat, calls: seq<Call>, m: Marquee.Marquee, u: nat)
    requires b.mode == Intermediate
    requires AdmissibleRun(SetProgressMode(b, ProgressableMode, finish, t).bar, calls)
    requires AdmissibleRun(Finish(b, newLine, t).bar, calls)
    ensures MarqueePass(Run(SetProgressMode(b, ProgressableMode, finish, t).bar, calls), m, u).None?
    ensures MarqueePass(Run(Finish(b, newLine, t).bar, calls), m, u).None?
  {
    MarqueeStaysStopped(SetProgressMode(b, ProgressableMode, finish, t).bar, calls, m, u);
    MarqueeStaysStopped(Finish(b, newLine, t).bar, calls, m, u);
  }

  /** A quiet bar writes nothing on any public call. (The animation loop
      does not consult the flag: see `QuietMarqueeStillWrites`.) */
  lemma QuietWritesNothing(b: Bar, c: Call)
    requires b.quiet && Admissible(b, c)
    ensures Apply(b, c).out == []
  {
  }

  /** Quiet only suppresses output: the same call on a quiet and on a
      non-quiet bar leads to the same progress, mode and configuration. */
  lemma QuietOnlySuppressesOutput(b: Bar, c: Call)
    requires Admissible(b.(quiet := false), c)
    ensures SameProgress(Apply(b.(quiet := true), c).bar, Apply(b.(quiet := false), c).bar)
    ensures Apply(b.(quiet := true), c).thrown == Apply(b.(quiet := false), c).thrown
  {
    match c {
      case CallSetProgressMode(code, finish, t) =>
        QuietModeSwitch(b, code, finish, t);
      case _ =>
    }
  }

  /** The mode switch case of `QuietOnlySuppressesOutput`. */
  lemma QuietModeSwitch(b: Bar, code: int, finish: bool, t: nat)
    ensures SameProgress(SetProgressMode(b.(quiet := true), code, finish, t).bar,
                         SetProgressMode(b.(quiet := false), code, finish, t).bar)
    ensures SetProgressMode(b.(quiet := true), code, finish, t).thrown
         == SetProgressMode(b.(quiet := false), code, finish, t).thrown
  {
  }

  /** Finishing twice writes a second terminal frame but leaves the same
      state as finishing once. */
  lemma FinishTwice(b: Bar, newLine: bool, t: nat, newLine2: bool, t2: nat)
    ensures var once := Finish(b, newLine, t);
      var twice := Finish(once.bar, newLine2, t2);
      && twice.bar == once.bar
      && (b.quiet <==> twice.out == [])
  {
  }

  /** A bar made by the two-argument constructor is in the intermediate
      mode: `start` runs the marquee unless quiet, and a later switch to the
      progressable mode writes the intermediate terminal frame. */
  lemma NewWithMaxIsIntermediate(max: int, message: string, t: nat)
    requires |message| <= Message.Width
    ensures var b := NewWithMax(max, message).value;
      && StartThread(b) == RunMarquee
      && SetProgressMode(b, ProgressableMode, true, t).out
         == FinishIntermediateFrame(b.message, b.indChar, RunningTime(t), true)
      && StartThread(SetProgressMode(b, ProgressableMode, true, t).bar) == Idle
  {
  }

  /** `setCurrentVal` renders whatever the mode: a bar from the two-argument
      constructor is intermediate, yet setting its value to the maximum
      writes a full determinate frame showing "100%". */
  lemma NewWithMaxRendersFullFrame(max: int, message: string, t: nat)
    requires 0 < max && |message| <= Message.Width
    ensures var b := NewWithMax(max, message).value;
      && b.mode == Intermediate
      && SetCurrentVal(b, max, t).out
         == [b.message + ": |" + Repeat(Sign1, BarWidth) + "| 100%          ", "\r"]
  {
    var b := NewWithMax(max, message).value;
    ProgressFrameAtMax(b.message, b.indChar, max);
  }

  /** Quiet does not silence a marquee that is already running: start the
      animation of a fresh bar, then set it quiet, and the next pass of the
      loop still writes a frame, although `setQuietMode` promises that
      nothing will be displayed. */
  lemma QuietMarqueeStillWrites(message: string, m: Marquee.Marquee, t: nat)
    requires |message| <= Message.Width
    ensures var b := New(message).value;
      var q := SetQuietMode(b, true).bar;
      && StartThread(b) == RunMarquee
      && q.quiet
      && MarqueePass(q, m, t).Some?
      && |MarqueePass(q, m, t).value.out| == 2
      && MarqueePass(q, m, t).value.out[0] != []
  {
  }
}
