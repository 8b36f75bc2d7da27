/** The stopwatch (`takeTime`): elapsed milliseconds become whole minutes
    and seconds and the `MM:SS` running-time text. The clock itself is not
    modelled: the elapsed time is a parameter. */
module Stopwatch {
  import opened Results
  import opened Text

  /** The timing fields of a progress bar. `runningTime` is `None` while
      the Java field still holds `null`. */
  datatype Clock = Clock(elapsed: int, seconds: int, minutes: int, runningTime: Option<string>)

  /** The fields of a freshly allocated bar, before any sample or reset. */
  const Unset := Clock(0, 0, 0, None)

  /** The fields after `reset`. */
  const Cleared := Clock(0, 0, 0, Some(""))

  /** `MM:SS`: both fields formatted with `%02d`, joined by a colon. */
  function FormatTime(minutes: nat, seconds: nat): string {
    Pad2(minutes) + ":" + Pad2(seconds)
  }

  /** A running-time text: digits, a colon, then exactly two digits. */
  predicate WellFormedTime(t: string) {
    && |t| >= 5
    && t[|t| - 3] == ':'
    && AllDigits(t[..|t| - 3])
    && AllDigits(t[|t| - 2..])
  }

  /** Reads a running-time text back as (minutes, seconds). */
  function ParseTime(t: string): (nat, nat)
    requires WellFormedTime(t)
  {
    (ParseDecimal(t[..|t| - 3]), ParseDecimal(t[|t| - 2..]))
  }

  /** `ParseTime` inverts `FormatTime` whenever the seconds field is a real
      second count, whatever the number of minutes. */
  lemma FormatTimeRoundTrip(minutes: nat, seconds: nat)
    requires seconds < 60
    ensures WellFormedTime(FormatTime(minutes, seconds))
    ensures ParseTime(FormatTime(minutes, seconds)) == (minutes, seconds)
  {
    var m, s := Pad2(minutes), Pad2(seconds);
    var t := FormatTime(minutes, seconds);
    assert |s| == 2;
    assert t[..|t| - 3] == m;
    assert t[|t| - 2..] == s;
    Pad2RoundTrip(minutes);
    Pad2RoundTrip(seconds);
  }

  /** One stopwatch sample taken `elapsedMs` milliseconds after the start. */
  function TakeTime(elapsedMs: nat): (c: Clock)
    ensures c.elapsed == elapsedMs
    ensures 0 <= c.seconds < 60 && 0 <= c.minutes
    ensures c.minutes * 60 + c.seconds == elapsedMs / 1000
    ensures c.runningTime.Some? && WellFormedTime(c.runningTime.value)
    ensures ParseTime(c.runningTime.value) == (c.minutes, c.seconds)
    ensures |c.runningTime.value| == 5 <==> c.minutes < 100
    ensures |c.runningTime.value| > 5 ==> c.runningTime.value[0] != '0'
  {
    var s := elapsedMs / 1000;
    FormatTimeRoundTrip(s / 60, s % 60);
    assert FormatTime(s / 60, s % 60)[0] == Pad2(s / 60)[0];
    Clock(elapsedMs, s % 60, s / 60, Some(FormatTime(s / 60, s % 60)))
  }

  /** The running-time text of a sample taken `elapsedMs` milliseconds in. */
  function RunningTime(elapsedMs: nat): (t: string)
    ensures WellFormedTime(t)
  {
    TakeTime(elapsedMs).runningTime.value
  }

  /** The running-time text determines the elapsed whole seconds: two
      samples show the same text exactly when they fall in the same second. */
  lemma RunningTimeDeterminesSecond(a: nat, b: nat)
    ensures RunningTime(a) == RunningTime(b) <==> a / 1000 == b / 1000
  {
    var ca, cb := TakeTime(a), TakeTime(b);
    if RunningTime(a) == RunningTime(b) {
      assert (ca.minutes, ca.seconds) == (cb.minutes, cb.seconds);
    }
  }
}
