/** Runs of the widget built from its handlers, as the user or the startup
    sequence drives them. Each starts from a newly constructed widget. */
module StopwatchScenarios {
  import opened TimeFormat
  import opened StopwatchWidget

  /** `perform_initial_actions`: right after construction the widget clicks
      the mode button twice and the pin button twice. It ends counting up
      from 00:00 and unpinned, as it started, but with 05:00 left behind as
      the countdown entry. */
  method Launch() returns (sw: Stopwatch)
    ensures fresh(sw) && sw.Valid()
    ensures !sw.isCountdown && !sw.isRunning && !sw.isPinned
    ensures sw.Current() == Clock(0, 0) && sw.Initial() == Clock(5, 0)
    ensures sw.startEnabled && sw.modeEnabled && sw.pinEnabled
    ensures sw.text == "00:00"
  {
    sw := new Stopwatch();
    sw.SwitchMode();
    sw.SwitchMode();
    sw.TogglePin();
    sw.TogglePin();
  }

  /** A new widget, started counting up from 00:00. */
  method StartCountUp() returns (sw: Stopwatch)
    ensures fresh(sw) && sw.Valid() && !sw.isCountdown && sw.isRunning
    ensures sw.Current() == Clock(0, 0) && sw.text == FormatTime(sw.minutes, sw.seconds)
  {
    sw := new Stopwatch();
    sw.StartPauseTimer();
  }

  /** `n` ticks of a running count-up add `n` seconds and keep the display
      showing the formatted time. */
  method TickCountUp(sw: Stopwatch, n: nat)
    requires sw.Valid() && !sw.isCountdown && sw.isRunning
    requires sw.text == FormatTime(sw.minutes, sw.seconds)
    modifies sw
    ensures sw.Valid() && !sw.isCountdown && sw.isRunning
    ensures Total(sw.Current()) == Total(old(sw.Current())) + n
    ensures sw.text == FormatTime(sw.minutes, sw.seconds)
  {
    var i := 0;
    while i < n
      invariant 0 <= i <= n
      invariant sw.Valid() && !sw.isCountdown && sw.isRunning
      invariant Total(sw.Current()) == Total(old(sw.Current())) + i
      invariant sw.text == FormatTime(sw.minutes, sw.seconds)
    {
      sw.UpdateTime();
      i := i + 1;
    }
  }

  /** Counting up for `n` ticks from a new widget shows n div 60 minutes and
      n mod 60 seconds. */
  method CountUp(n: nat) returns (elapsed: Clock, shown: string)
    ensures elapsed == Clock(n / 60, n % 60)
    ensures shown == FormatTime(n / 60, n % 60)
  {
    var sw := StartCountUp();
    TickCountUp(sw, n);
    ClockOfTotal(sw.Current());
    elapsed, shown := sw.Current(), sw.text;
  }

  /** 125 one-second ticks from 00:00 show 02:05. */
  method CountUpFor125Seconds() returns (elapsed: Clock, shown: string)
    ensures elapsed == Clock(2, 5) && shown == "02:05"
  {
    elapsed, shown := CountUp(125);
  }

  /** A new widget switched to countdown mode, with `target` typed into the
      line edit and started. */
  method StartCountdown(target: Clock) returns (sw: Stopwatch)
    requires ClockValid(target)
    ensures fresh(sw) && sw.Valid()
    ensures sw.isCountdown && sw.isRunning && sw.readOnly && sw.startEnabled
    ensures sw.Current() == target && sw.Initial() == target
  {
    sw := new Stopwatch();
    sw.SwitchMode();
    sw.EditText(FormatTime(target.minutes, target.seconds));
    ParseFormat(target.minutes, target.seconds);
    sw.StartPauseTimer();
  }

  /** Ticking a running countdown until the clock stops takes one tick per
      second left plus the tick that finds 00:00, which stops the clock,
      disables start and applies the finished style. */
  method RunToStop(sw: Stopwatch) returns (ticks: nat)
    requires sw.Valid() && sw.isCountdown && sw.isRunning
    modifies sw
    ensures sw.Valid() && sw.isCountdown && sw.Initial() == old(sw.Initial()) && sw.readOnly == old(sw.readOnly)
    ensures ticks == Total(old(sw.Current())) + 1
    ensures sw.Current() == Clock(0, 0) && !sw.isRunning && !sw.startEnabled && sw.finished
  {
    ticks := 0;
    while sw.isRunning
      invariant sw.Valid() && sw.isCountdown && sw.Initial() == old(sw.Initial()) && sw.readOnly == old(sw.readOnly)
      invariant sw.isRunning ==> ticks + Total(sw.Current()) == Total(old(sw.Current()))
      invariant !sw.isRunning ==> ticks == Total(old(sw.Current())) + 1 && sw.Current() == Clock(0, 0) && !sw.startEnabled && sw.finished
      decreases Total(sw.Current()) + (if sw.isRunning then 1 else 0)
    {
      sw.UpdateTime();
      ticks := ticks + 1;
    }
  }

  /** A countdown from `target` reaches 00:00 after Total(target) ticks and
      stops on the next one with the finished style, leaving the start, mode
      and pin buttons all disabled; a reset then restores `target`. */
  method CountdownToZero(target: Clock) returns (ticks: nat, atStop: Clock, lockedOut: bool, restored: Clock)
    requires ClockValid(target)
    ensures ticks == Total(target) + 1
    ensures atStop == Clock(0, 0) && lockedOut
    ensures restored == target
  {
    var sw := StartCountdown(target);
    ticks := RunToStop(sw);
    atStop := sw.Current();
    lockedOut := !sw.startEnabled && !sw.modeEnabled && !sw.pinEnabled && sw.finished;
    sw.ResetTimer();
    restored := sw.Current();
  }

  /** The five-second countdown: five ticks bring it to 00:00, the sixth stops
      it, and a reset shows 00:05 again. */
  method FiveSecondCountdown() returns (ticks: nat, atStop: Clock, restored: Clock)
    ensures ticks == 6 && atStop == Clock(0, 0) && restored == Clock(0, 5)
  {
    var lockedOut;
    ticks, atStop, lockedOut, restored := CountdownToZero(Clock(0, 5));
  }

  /** Return in the read-only line edit of a finished countdown still runs
      `update_countdown_time`: the shown 00:00 becomes the entry, so a reset
      then shows 00:00 rather than `target`. */
  method ReturnAfterFinish(target: Clock) returns (restored: Clock)
    requires ClockValid(target)
    ensures restored == Clock(0, 0)
    ensures Total(target) > 0 ==> restored != target
  {
    var sw := StartCountdown(target);
    var ticks := RunToStop(sw);
    sw.UpdateCountdownTime();
    sw.ResetTimer();
    restored := sw.Current();
  }

  /** `k` ticks of a running countdown with at least `k` seconds left take
      `k` seconds off and leave it running. */
  method TickCountdown(sw: Stopwatch, k: nat)
    requires sw.Valid() && sw.isCountdown && sw.isRunning && sw.readOnly
    requires k <= Total(sw.Current())
    modifies sw
    ensures sw.Valid() && sw.isCountdown && sw.isRunning && sw.readOnly
    ensures Total(sw.Current()) == Total(old(sw.Current())) - k
  {
    var i := 0;
    while i < k
      invariant 0 <= i <= k
      invariant sw.Valid() && sw.isCountdown && sw.isRunning && sw.readOnly
      invariant Total(sw.Current()) == Total(old(sw.Current())) - i
    {
      sw.UpdateTime();
      i := i + 1;
    }
  }

  /** Pausing a countdown after `k` ticks and starting it again commits the
      paused time, shown on the display, as the new entry; a reset then
      returns to the paused time, not to `target`. */
  method PauseResumeReset(target: Clock, k: nat) returns (paused: Clock, restored: Clock)
    requires ClockValid(target) && k <= Total(target)
    ensures Total(paused) == Total(target) - k
    ensures restored == paused
    ensures k > 0 ==> restored != target
  {
    var sw := StartCountdown(target);
    TickCountdown(sw, k);
    sw.StartPauseTimer();
    paused := sw.Current();
    sw.StartPauseTimer();
    sw.ResetTimer();
    restored := sw.Current();
  }

  /** Entering "5:70" is refused: the 05:00 set by the mode switch stays as
      both the current time and the entry, and the display shows it again. */
  method RejectSeventySeconds() returns (current: Clock, entry: Clock, shown: string)
    ensures current == Clock(5, 0) && entry == Clock(5, 0) && shown == "05:00"
  {
    var sw := new Stopwatch();
    sw.SwitchMode();
    sw.EditText("5:70");
    SeventySecondsRefused();
    sw.UpdateCountdownTime();
    current, entry, shown := sw.Current(), sw.Initial(), sw.text;
  }

  /** "5:70" names seventy seconds and so does not parse. */
  lemma SeventySecondsRefused()
    ensures ParseTime("5:70") == None
  {
    assert "5:70" == "5" + ":" + "70";
    ParseTimeFields("5", "70");
    DigitsValueOf(70);
    assert Digits(70) == "70";
  }
}
