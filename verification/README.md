# ProgressBar — a Dafny model of the text progress bar

This project models the core of `info.radm.pbar.ProgressBar`, a console
progress indicator that writes to the error stream. It has two modes:
INTERMEDIATE (0), an animated "marquee" for work of unknown length, and
PROGRESSABLE (1), a track filled in proportion to `current / max` with a
percentage. The model covers four parts:

- **Message normalisation** (`Message`). The label in front of the bar is
  right-padded to a 35-character column. A longer label is refused with
  "MessageOverflow".
- **Frames** (`Frames`, `Marquee`). These are the exact strings each
  rendering routine writes:
  - the determinate frame;
  - the two terminal frames, `[Total: MM:SS]` and `[MM:SS]`;
  - one tick of the marquee, a 10-cell block that sweeps across a 35-cell
    track, shrinks at the right border and wraps.
- **Stopwatch** (`Stopwatch`). Elapsed milliseconds become `%02d` minutes and
  seconds.
- **Controller** (`ProgressBar`). The bar's state is an immutable `Bar`.
  Every public operation is a pure function returning a `Step`, which holds
  the new state, the strings written in order, and the exception thrown, if
  any. The dispatch of the animation thread is modelled as well.

The elapsed time is a parameter (`elapsedMs`) wherever the source reads the
clock.

Behaviour of the source that the model keeps, where it differs from what one
might expect:

- `ProgressBar(max, message)` is documented as creating a progressable bar.
  In fact it switches to INTERMEDIATE, so the bar ends up intermediate
  (`NewWithMax`, `NewWithMaxIsIntermediate`).
- `setCurrentVal` stores its argument without clamping. It renders in either
  mode unless quiet.
- `finish` resets, so `current` ends at 0, even though `finishProgress` had
  set it to `max` on the way.
- The `== 25` branch of `setMessage` can never be taken.
- In `startThread` the `else` binds to the inner `if (!quiet)`. A
  progressable bar's thread therefore draws nothing.
- `indicate` is set only by the constructors. Once a mode switch or an
  intermediate `finish` clears it, the marquee loop cannot run again.
- `setQuietMode` does not stop a marquee that is already running. The loop
  never reads `quiet`, so a quiet bar keeps animating
  (`QuietMarqueeStillWrites`).
- A bar whose maximum was never set renders the blank "0%" frame for
  `setCurrentVal(0)`. Any other value never finishes rendering (see
  "## Left out").
- The message is never truncated with an ellipsis.
- `setMaxVal` does not validate its argument.
- Operations are not no-ops in the "wrong" mode.

Files: `results.dfy`, `text.dfy`, `stopwatch.dfy`, `message.dfy`,
`frames.dfy`, `marquee.dfy`, `progressbar.dfy`. There is one module per
file.

## Model

| member | source | states |
|---|---|---|
| Text.Repeat | src/info/radm/pbar/ProgressBar.java:323-327 | a `for` loop appending one character yields exactly max(n, 0) copies of it and nothing else |
| Text.Decimal | src/info/radm/pbar/ProgressBar.java:330 | the decimal text of an int is a non-empty digit string without a leading zero, one digit exactly below 10 and at most two exactly below 100 |
| Text.DecimalRoundTrip | src/info/radm/pbar/ProgressBar.java:330 | reading the decimal text back gives the number |
| Text.Pad2 | src/info/radm/pbar/ProgressBar.java:346 | `%02d` gives only digits, at least two of them, exactly two iff the value is below 100, and no leading zero when there are more than two |
| Text.Pad2RoundTrip | src/info/radm/pbar/ProgressBar.java:346 | the zero-padded field reads back as the value it formats |
| Text.Pad2Injective | src/info/radm/pbar/ProgressBar.java:346 | distinct values never render to the same `%02d` field |
| Stopwatch.FormatTimeRoundTrip | src/info/radm/pbar/ProgressBar.java:346 | `MM:SS` is well formed for any minute count, and parsing it gives back minutes and seconds |
| Stopwatch.TakeTime | src/info/radm/pbar/ProgressBar.java:338-346 | seconds lie in [0, 59], minutes*60 + seconds equals the whole elapsed seconds, the text parses back to (minutes, seconds), it has 5 characters iff minutes < 100, and a longer text has no leading zero |
| Stopwatch.RunningTimeDeterminesSecond | src/info/radm/pbar/ProgressBar.java:339-346 | two samples show the same running time iff they fall in the same elapsed second |
| Message.Normalize | src/info/radm/pbar/ProgressBar.java:159-166 | accepted iff at most 35 characters; the stored text is 35 wide with the original as prefix and blanks after; otherwise "MessageOverflow", so the 25-character branch is dead |
| Message.NormalizeIdempotent | src/info/radm/pbar/ProgressBar.java:159-161 | a stored message normalises to itself |
| Message.NormalizeInjective | src/info/radm/pbar/ProgressBar.java:160-161 | padding is lossless: two messages without trailing blanks store alike only if equal |
| Frames.Fill | src/info/radm/pbar/ProgressBar.java:318 | the filled cell count is the floor of 35*current/max (fill*max <= 35*current < (fill+1)*max) and at most 35 |
| Frames.Percent | src/info/radm/pbar/ProgressBar.java:319 | the percentage is the integer floor of 100*current/max, at most 100 |
| Frames.ProgressTrack | src/info/radm/pbar/ProgressBar.java:318-327 | the track has 35 cells; cell i is the indicator iff max > 0 and i < fill, otherwise a blank (all blank at 0 of 0, where the NaN casts give 0) |
| Frames.FillMonotone | src/info/radm/pbar/ProgressBar.java:318 | more progress never shows fewer filled cells |
| Frames.PercentMonotone | src/info/radm/pbar/ProgressBar.java:319 | more progress never shows a lower percentage |
| Frames.FullExactlyAtMax | src/info/radm/pbar/ProgressBar.java:318-319 | the track is full iff current == max, and the percentage is 100 iff current == max |
| Frames.EmptyExactlyBelowOneCell | src/info/radm/pbar/ProgressBar.java:318-323 | the track is empty iff 35*current < max |
| Frames.ProgressFrameAtMax | src/info/radm/pbar/ProgressBar.java:316-331 | at current == max the frame is the message, a fully filled track and "100%", then a carriage return |
| Frames.ProgressFrameAtZero | src/info/radm/pbar/ProgressBar.java:316-331 | at current == 0, also with max == 0, the frame is the message, an all-blank track and "0%", then a carriage return |
| Frames.ShownPercent | src/info/radm/pbar/ProgressBar.java:319-330 | the percentage a frame shows is the integer floor of 100 * current / max, at most 100, which the source's double floor can undershoot by one; it is 0 at 0 of 0, where the cast of the NaN quotient gives 0 |
| Frames.ProgressFrame | src/info/radm/pbar/ProgressBar.java:316-331 | the frame is one line plus "\r": the message, ": \|", the 35-cell track, then "\| ", the percentage and "%" with ten trailing blanks |
| Frames.FinishProgressExtendsFullFrame | src/info/radm/pbar/ProgressBar.java:225-238 | the progressable terminal line matches the 100% determinate frame up to "100%", then adds " [Total: MM:SS]" |
| Frames.FullTrack | src/info/radm/pbar/ProgressBar.java:230-233 | the terminal track is 37 characters: a border, 35 indicator cells, a border |
| Frames.FinishProgressFrame | src/info/radm/pbar/ProgressBar.java:229-237 | the progressable terminal frame is the message, ": ", the full track, " 100% [Total: ", the running time and "]" with five blanks, plus a line break iff requested |
| Frames.FinishIntermediateFrame | src/info/radm/pbar/ProgressBar.java:251-259 | the intermediate terminal frame is a carriage return, the message, ": ", the full track, " [", the running time and "]" with five blanks, plus a line break iff requested |
| Frames.TerminalFramesDiffer | src/info/radm/pbar/ProgressBar.java:234-257 | the two terminal frames differ for the same message and time |
| Marquee.Tick | src/info/radm/pbar/ProgressBar.java:274-301 | a pass advances the sweep by exactly one; a pass starting at or beyond the border wraps and leaves (pos 1, size 10, start 0) |
| Marquee.InitialInv | src/info/radm/pbar/ProgressBar.java:267-269 | the loop's initial locals satisfy the marquee invariant |
| Marquee.TickAt | src/info/radm/pbar/ProgressBar.java:272-301 | from the top-of-pass state at position p, a pass leads to the one at p + 1, or at 1 after position 35 |
| Marquee.TickPreservesInv | src/info/radm/pbar/ProgressBar.java:272-301 | every pass preserves the marquee invariant |
| Marquee.DrawnBounds | src/info/radm/pbar/ProgressBar.java:274-286 | after the shrink step pos + indSize <= 35 and 1 <= indSize <= 10, and the left-border cells end before the sweep |
| Marquee.Track | src/info/radm/pbar/ProgressBar.java:279-296 | from every state the loop can hold, a pass draws exactly 35 cells: the indicator in the cells lost at the right (shown at the left) and in the block, blanks everywhere else |
| Marquee.MarqueeFrame | src/info/radm/pbar/ProgressBar.java:298-299 | a pass writes the message, ": \|", the track, "\| [", the running time and "]", then a separate "\r" |
| Marquee.LitCells | src/info/radm/pbar/ProgressBar.java:279-296 | 10 indicator cells are drawn until the block first touches the border, and 9 from then until the wrap |
| Marquee.AfterClosedForm | src/info/radm/pbar/ProgressBar.java:266-301 | after n >= 1 passes the sweep stands at 1 + (n - 1) mod 35, in the invariant state for that position |
| Marquee.AfterInv | src/info/radm/pbar/ProgressBar.java:266-301 | every state the loop reaches satisfies the invariant |
| Marquee.AfterPeriodic | src/info/radm/pbar/ProgressBar.java:266-301 | from the first pass on, the animation repeats every 35 passes |
| ProgressBar.ModeCode | src/info/radm/pbar/ProgressBar.java:20-21 | the two modes map to the initial values 0 and 1 of the public mode fields, and INTERMEDIATE is 0 |
| ProgressBar.New | src/info/radm/pbar/ProgressBar.java:45-48 | succeeds iff the message fits, else throws MessageOverflow; the bar is intermediate, animated, not quiet, not finished, at 0 of 0, with '\|', the stopwatch unset, and the message followed by blanks up to 35 characters |
| ProgressBar.NewWithMax | src/info/radm/pbar/ProgressBar.java:59-67 | succeeds iff the message fits, else throws MessageOverflow; the bar is INTERMEDIATE, contrary to its documentation, with the given max, animated, at 0, with '\|', the stopwatch reset, and the message followed by blanks up to 35 characters |
| ProgressBar.SetMaxVal | src/info/radm/pbar/ProgressBar.java:75-77 | any max is stored unvalidated; nothing is written and no other field changes |
| ProgressBar.SetQuietMode | src/info/radm/pbar/ProgressBar.java:79-87 | the quiet flag changes, and progress, mode, configuration and stopwatch do not |
| ProgressBar.SetIndicatorCharacter | src/info/radm/pbar/ProgressBar.java:96-98 | the glyph changes; nothing is written, and progress, mode, message, quiet flag and stopwatch stay as they were |
| ProgressBar.SetMessage | src/info/radm/pbar/ProgressBar.java:159-166 | throws MessageOverflow iff longer than 35, and then the bar is unchanged; otherwise only the message changes, to the argument followed by blanks up to 35 characters |
| ProgressBar.Reset | src/info/radm/pbar/ProgressBar.java:207-217 | progress goes to 0, the running time becomes "", and nothing else changes |
| ProgressBar.FinishProgress | src/info/radm/pbar/ProgressBar.java:225-239 | forces current to max and samples the stopwatch; it writes the progressable terminal frame iff not quiet |
| ProgressBar.FinishIntermediate | src/info/radm/pbar/ProgressBar.java:246-261 | clears indicate and samples the stopwatch; it writes the intermediate terminal frame iff not quiet |
| ProgressBar.PrintProgressBar | src/info/radm/pbar/ProgressBar.java:316-332 | samples the stopwatch and writes one determinate frame for the stored current and max |
| ProgressBar.SetProgressMode | src/info/radm/pbar/ProgressBar.java:109-129 | throws IllegalProgressMode iff the code is not 0 or 1, with no state change; otherwise adopts the mode and resets (see below the table) |
| ProgressBar.SetCurrentVal | src/info/radm/pbar/ProgressBar.java:173-177 | stores the value unclamped; nothing else changes except the stopwatch; it writes exactly one determinate frame iff not quiet (including the blank 0% frame at 0 of 0) |
| ProgressBar.Finish | src/info/radm/pbar/ProgressBar.java:188-196 | sets finished; writes the current mode's terminal frame (nothing if quiet), plus a line break iff asked; clears indicate only in INTERMEDIATE; ends with current == 0 |
| ProgressBar.StartThread | src/info/radm/pbar/ProgressBar.java:353-369 | the marquee runs iff the mode is INTERMEDIATE and not quiet; because of the dangling else, the determinate branch never renders |
| ProgressBar.MarqueePass | src/info/radm/pbar/ProgressBar.java:272-308 | a pass happens iff indicate; it writes one marquee frame with the current message and time, whatever quiet says, and advances the marquee |
| ProgressBar.ApplyPreservesValid | src/info/radm/pbar/ProgressBar.java:159-166 | every operation keeps the stored message exactly 35 wide |
| ProgressBar.RunPreservesValid | src/info/radm/pbar/ProgressBar.java:159-166 | every sequence of operations keeps the message column fixed |
| ProgressBar.IndicateNeverRises | src/info/radm/pbar/ProgressBar.java:109-129 | no operation on an existing bar sets indicate |
| ProgressBar.MarqueeStaysStopped | src/info/radm/pbar/ProgressBar.java:272 | once indicate is off, no sequence of operations lets the marquee loop run another pass |
| ProgressBar.LeavingIntermediateStopsMarquee | src/info/radm/pbar/ProgressBar.java:111-118 | after a switch from INTERMEDIATE to PROGRESSABLE, or an intermediate finish, the marquee never runs again |
| ProgressBar.QuietWritesNothing | src/info/radm/pbar/ProgressBar.java:79-87 | a quiet bar writes nothing on any of the public calls (the marquee pass is not one of them) |
| ProgressBar.QuietMarqueeStillWrites | src/info/radm/pbar/ProgressBar.java:272-299 | a marquee started before the bar was set quiet keeps writing frames, contrary to the documentation of `setQuietMode` |
| ProgressBar.QuietOnlySuppressesOutput | src/info/radm/pbar/ProgressBar.java:79-87 | the same call on a quiet and a non-quiet bar gives the same progress, mode, configuration and exception |
| ProgressBar.FinishTwice | src/info/radm/pbar/ProgressBar.java:188-196 | finishing again leaves the state unchanged and writes a terminal frame again unless quiet |
| ProgressBar.NewWithMaxRendersFullFrame | src/info/radm/pbar/ProgressBar.java:173-177 | a two-argument bar is INTERMEDIATE, yet setting its value to max writes a full determinate frame with "100%" |
| ProgressBar.NewWithMaxIsIntermediate | src/info/radm/pbar/ProgressBar.java:50-67 | a two-argument bar animates on start unless quiet; switching it to PROGRESSABLE writes the intermediate terminal frame and stops the animation |

What `ProgressBar.SetProgressMode` states about output:

- To PROGRESSABLE: it writes the intermediate terminal frame and a line break
  only when leaving INTERMEDIATE, not quiet and asked to finish. It clears
  indicate when leaving INTERMEDIATE.
- To INTERMEDIATE: it writes the progressable terminal frame and a line
  break whenever it is not quiet and is asked to finish.

## Left out

- Threads and the animation loop: the `Thread` of `startThread`, the `while (indicate)` loop and its 25 ms sleep are concurrency; one pass is modelled (`MarqueePass`, `Marquee.Tick`), not the loop or its termination. `start` only calls `startThread`; `stop` is empty.
- The clock: `System.currentTimeMillis` is replaced by the `elapsedMs` parameter. The `start` field is never assigned, so in the source the elapsed time is time since the epoch; that is not modelled.
- The ETA fields (`ETAtime`, `ETAsec`, `ETAmin`, `ETAstring`): they use floating-point division, divide by `current` (which may be 0), and are never printed. `Reset` therefore does not restore `ETAstring` to "--:--".
- Frames.Percent: the percentage is the integer floor of 100*current/max. The source computes `Math.floor(100*((double)current/max))`, which can be one lower because of rounding (current 29, max 100 shows 28). Only the 0% and 100% endpoints are claimed for the source.
- Frames.ProgressFrame: defined where `Renders` holds: 0 <= current <= max with max > 0, or 0 of 0. The source validates neither value. At 0 of 0 both `(int)` casts of the NaN quotient give 0, and the model writes that blank "0%" frame.
- Frames.ProgressFrame: with max == 0 and current != 0 the source never finishes the frame. For current > 0, `numbar` is +Infinity, so the fill loop never ends. For current < 0, the blank loop starts at `Integer.MIN_VALUE`. Either way `setCurrentVal` writes nothing and ends in an OutOfMemoryError. The same happens whenever 35*current/max is 2^31 or more. The precondition excludes these non-terminating inputs, among others.
- Frames.ProgressFrame: with max < 0 the source does finish a frame, which is not modelled. At 0 of -10 the quotient is -0.0, so it writes the blank "0%" frame. At -5 of -10 it writes 17 indicator cells, 18 blanks and "50%". With current > 0 the blank loop starts below 0, so the track is longer than 35 cells and the percentage is negative.
- Frames.ProgressFrame: with max > 0 and current > max, the source writes at least 35 cells, more once 35*current/max reaches 36, and a percentage of at least 100. For example, 1001 of 1000 writes the full "100%" frame. This is not modelled.
- Frames.ProgressFrame: with max > 0 and current < 0, the source writes more than 35 cells and a negative percentage. This is not modelled.
- Frames.ProgressFrame: the percentage it writes is `Frames.ShownPercent`, an integer floor that can be one higher than the percentage the source writes (see the next line).
- Frames.ShownPercent: the integer floor of 100*current/max. The source's `Math.floor(100*((double)current/max))` can be one lower: at 29 of 100 the source writes "28%" and the model "29%". The same holds for `PrintProgressBar` and `SetCurrentVal`, whose frames carry this percentage.
- ProgressBar.SetCurrentVal: carries the same precondition when not quiet, for the same reasons.
- ProgressBar.PrintProgressBar: carries the same precondition, for the same reasons.
- Stopwatch.TakeTime: the `(int)` cast of the elapsed seconds wraps after 2^31 seconds; the model uses unbounded integers.
- Java `int` fields (`current`, `max`, the marquee locals) are unbounded integers. They take part in no arithmetic outside the frames, where the preconditions bound them.
- Strings are sequences of `char`. Java's UTF-16 code-unit lengths and a `null` message (a `NullPointerException` in `setMessage`) are not modelled.
- Text.Pad2: `String.format("%02d", …)` uses the zero digit of the default locale. In a locale with non-ASCII digits (Arabic-Indic or Thai, for example), the running time is not the ASCII text the model produces. The model assumes an ASCII-digit locale.
- ProgressBar.ModeCode: `INTERMEDIATE_MODE`, `PROGRESSABLE_MODE` and `SIGN_1`..`SIGN_4` are public static fields that are not `final`, so any caller may reassign them. The model fixes them at their initial values 0, 1, '|', '=', '\\' and '#'.
- `println("")` is modelled as writing "\n"; the platform line separator is not modelled.
- Thread-safety of fields that the caller changes while the marquee thread reads them (`message`, `quiet`, `indChar`) is not modelled. A pass reads the state it is given.
- src/info/radm/pbar/ProgressTester.java is a demo driver. It uses members that ProgressBar.java does not declare, so it is not part of this model.
