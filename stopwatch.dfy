/** The time-keeping state machine of the `Stopwatch` widget. The Qt widgets
    are reduced to the state they hold: the QTimer to `isRunning`, each
    button's enabled state to a boolean, the time display (a label while
    counting up, a line edit while counting down) to the `text` it shows, and
    the line edit's read-only flag to `readOnly`. */
module StopwatchWidget {
  import opened TimeFormat

  class Stopwatch {
    var minutes: int
    var seconds: int
    var initialMinutes: int
    var initialSeconds: int
    var isCountdown: bool
    var isRunning: bool      // the one-second tick timer is active
    var isPinned: bool       // the window stays on top
    var startEnabled: bool   // the start/pause button accepts clicks
    var modeEnabled: bool    // the mode button accepts clicks
    var pinEnabled: bool     // the pin button accepts clicks
    var text: string         // what the time display shows
    var readOnly: bool       // the countdown line edit refuses edits
    var finished: bool       // the countdown-finished background is applied

    function Current(): Clock
      reads this
    {
      Clock(minutes, seconds)
    }

    function Initial(): Clock
      reads this
    {
      Clock(initialMinutes, initialSeconds)
    }

    /** The invariant every handler keeps. */
    ghost predicate Valid()
      reads this
    {
      // both times are normalised
      && ClockValid(Current())
      && ClockValid(Initial())
      // the mode and pin buttons are disabled while the clock runs, start is not
      && (isRunning ==> startEnabled && !modeEnabled && !pinEnabled)
      // a finished countdown is stopped and only a reset brings the buttons back
      && (finished ==> isCountdown && !isRunning && !startEnabled && !modeEnabled && !pinEnabled)
      // a running countdown cannot be edited
      && (isCountdown && isRunning ==> readOnly)
      // a locked countdown entry reads as the current time
      && (isCountdown && readOnly ==> ParseTime(text) == Some(Current()))
    }

    /** The state after `__init__` and `init_ui`: counting up from 00:00, idle,
        unpinned, every button enabled. */
    constructor ()
      ensures Valid()
      ensures Current() == Clock(0, 0) && Initial() == Clock(0, 0)
      ensures !isCountdown && !isRunning && !isPinned
      ensures startEnabled && modeEnabled && pinEnabled
      ensures text == FormatTime(minutes, seconds) && !readOnly && !finished
    {
      isCountdown, isRunning, isPinned := false, false, false;
      minutes, seconds := 0, 0;
      initialMinutes, initialSeconds := 0, 0;
      text := FormatTime(0, 0);
      startEnabled, modeEnabled, pinEnabled := true, true, true;
      readOnly, finished := false, false;
    }

    /** `update_time_display`: the display shows the formatted current time.
        The tick and the reset perform this same assignment in line. */
    method UpdateTimeDisplay()
      modifies this`text
      ensures text == FormatTime(minutes, seconds)
    {
      text := FormatTime(minutes, seconds);
    }

    /** `update_time`, the one-second tick, delivered by the timer only while
        it runs. */
    method UpdateTime()
      requires Valid() && isRunning
      modifies this
      ensures Valid()
      ensures text == FormatTime(minutes, seconds)
      ensures unchanged(this`isCountdown, this`initialMinutes, this`initialSeconds, this`isPinned)
      ensures unchanged(this`modeEnabled, this`pinEnabled, this`readOnly)
      // counting up: one second later, the seconds wrapping into the minutes
      ensures !isCountdown ==>
        && (old(seconds) < 59 ==> seconds == old(seconds) + 1 && minutes == old(minutes))
        && (old(seconds) == 59 ==> seconds == 0 && minutes == old(minutes) + 1)
        && Total(Current()) == Total(old(Current())) + 1
        && unchanged(this`isRunning, this`startEnabled, this`finished)
      // counting down away from 00:00: one second earlier, borrowing a minute at :00
      ensures isCountdown && old(Current()) != Clock(0, 0) ==>
        && Total(Current()) == Total(old(Current())) - 1
        && (old(seconds) == 0 ==> seconds == 59 && minutes == old(minutes) - 1)
        && (old(seconds) != 0 ==> seconds == old(seconds) - 1 && minutes == old(minutes))
        && unchanged(this`isRunning, this`startEnabled, this`finished)
      // counting down at 00:00: the time stays, the clock stops, start is disabled
      ensures isCountdown && old(Current()) == Clock(0, 0) ==>
        Current() == Clock(0, 0) && !isRunning && !startEnabled && finished
    {
      if !isCountdown {
        seconds := seconds + 1;
        if seconds >= 60 {
          seconds := 0;
          minutes := minutes + 1;
        }
      } else {
        if seconds == 0 && minutes == 0 {
          isRunning := false;
          startEnabled := false;
          finished := true;
        } else if seconds == 0 {
          seconds := 59;
          minutes := minutes - 1;
        } else {
          seconds := seconds - 1;
        }
      }
      // update_time_display
      text := FormatTime(minutes, seconds);
      ShowsCurrentTime();
    }

    /** When the display shows the formatted current time, the invariant's
        clause about the locked countdown entry holds. */
    lemma ShowsCurrentTime()
      requires ClockValid(Current()) && ClockValid(Initial())
      requires isRunning ==> startEnabled && !modeEnabled && !pinEnabled
      requires finished ==> isCountdown && !isRunning && !startEnabled && !modeEnabled && !pinEnabled
      requires isCountdown && isRunning ==> readOnly
      requires text == FormatTime(minutes, seconds)
      ensures Valid()
    {
      ParseFormat(minutes, seconds);
    }

    /** What `update_countdown_time` leaves behind, given the display text, the
        current time and the stored entry before it ran: an accepted text
        becomes both the current time and the entry and stays as typed; a
        refused one leaves both times alone and is replaced by the formatted
        current time. */
    ghost predicate CommittedFrom(text0: string, current0: Clock, initial0: Clock)
      reads this
    {
      match ParseTime(text0)
      case Some(c) => Current() == c && Initial() == c && text == text0
      case None => Current() == current0 && Initial() == initial0 && text == FormatTime(current0.minutes, current0.seconds)
    }

    /** `update_countdown_time`, run by Return in the line edit and by starting
        a countdown. The line edit exists only in countdown mode. */
    method UpdateCountdownTime()
      requires Valid() && isCountdown
      modifies this
      ensures Valid()
      ensures CommittedFrom(old(text), old(Current()), old(Initial()))
      // afterwards the display always reads as the current time
      ensures ParseTime(text) == Some(Current())
      ensures unchanged(this`isCountdown, this`isRunning, this`isPinned, this`readOnly, this`finished)
      ensures unchanged(this`startEnabled, this`modeEnabled, this`pinEnabled)
    {
      var parsed := ParseTime(text);
      if parsed.Some? {
        minutes := parsed.value.minutes;
        seconds := parsed.value.seconds;
        initialMinutes := minutes;
        initialSeconds := seconds;
      } else {
        text := FormatTime(minutes, seconds);
        ParseFormat(minutes, seconds);
      }
    }

    /** `start_pause_timer`: starts an idle or paused clock, or pauses a
        running one. It runs on a click of the start button, so only while
        that button is enabled. */
    method StartPauseTimer()
      requires Valid() && startEnabled
      modifies this
      ensures Valid()
      ensures isRunning == !old(isRunning)
      ensures modeEnabled == !isRunning && pinEnabled == !isRunning
      ensures unchanged(this`isCountdown, this`isPinned, this`startEnabled, this`finished)
      // pausing, or starting to count up, touches neither the times nor the display
      ensures old(isRunning) || !isCountdown ==>
        unchanged(this`minutes, this`seconds, this`initialMinutes, this`initialSeconds, this`text, this`readOnly)
      // starting a countdown first commits the display text, then locks it
      ensures !old(isRunning) && isCountdown ==>
        CommittedFrom(old(text), old(Current()), old(Initial())) && readOnly
      // so resuming a paused countdown makes the paused time the new entry
      ensures !old(isRunning) && isCountdown && old(readOnly) ==>
        Current() == old(Current()) && Initial() == old(Current())
    {
      if !isRunning {
        if isCountdown {
          UpdateCountdownTime();
          readOnly := true;
        }
        isRunning := true;
        modeEnabled := false;
        pinEnabled := false;
      } else {
        isRunning := false;
        modeEnabled := true;
        pinEnabled := true;
      }
    }

    /** `reset_timer`: stops the clock and returns to the countdown entry, or
        to 00:00 when counting up, with every button enabled. The reset button
        is always enabled. It reads only the stored entry, so it needs only
        that to be normalised and, as it clears the finished style only in
        countdown mode, a finished style to belong to a countdown. */
    method ResetTimer()
      requires ClockValid(Initial()) && (finished ==> isCountdown)
      modifies this
      ensures Valid()
      ensures !isRunning && startEnabled && modeEnabled && pinEnabled
      ensures text == FormatTime(minutes, seconds)
      ensures unchanged(this`isCountdown, this`isPinned, this`initialMinutes, this`initialSeconds)
      ensures isCountdown ==> Current() == Initial() && !readOnly && !finished
      ensures !isCountdown ==> Current() == Clock(0, 0) && unchanged(this`readOnly, this`finished)
    {
      isRunning := false;
      if isCountdown {
        minutes := initialMinutes;
        seconds := initialSeconds;
        readOnly := false;
        finished := false;
      } else {
        minutes := 0;
        seconds := 0;
      }
      // update_time_display
      text := FormatTime(minutes, seconds);
      startEnabled := true;
      isRunning := false;
      modeEnabled := true;
      pinEnabled := true;
      ShowsCurrentTime();
    }

    /** `switch_mode`: toggles between counting up and counting down, then
        resets. Entering countdown mode sets both times to 05:00; leaving it
        keeps the entry and resets to 00:00. It runs on a click of the mode
        button, so only while that button is enabled. */
    method SwitchMode()
      requires Valid() && modeEnabled
      modifies this
      ensures Valid()
      ensures isCountdown == !old(isCountdown)
      ensures !isRunning && startEnabled && modeEnabled && pinEnabled
      ensures text == FormatTime(minutes, seconds)
      ensures unchanged(this`isPinned)
      ensures isCountdown ==>
        Current() == Clock(5, 0) && Initial() == Clock(5, 0) && !readOnly && !finished
      ensures !isCountdown ==>
        && Current() == Clock(0, 0)
        && unchanged(this`initialMinutes, this`initialSeconds, this`readOnly, this`finished)
    {
      if isCountdown {
        isCountdown := false;
        // the label replacing the line edit
        text := FormatTime(minutes, seconds);
      } else {
        isCountdown := true;
        // a fresh, editable line edit replacing the label
        text := FormatTime(minutes, seconds);
        readOnly := false;
        minutes := 5;
        seconds := 0;
        initialMinutes := minutes;
        initialSeconds := seconds;
        text := FormatTime(minutes, seconds);
      }
      ResetTimer();
    }

    /** `toggle_pin`: a click of the enabled, checkable pin button flips the
        stay-on-top state. */
    method TogglePin()
      requires Valid() && pinEnabled
      modifies this`isPinned
      ensures Valid()
      ensures isPinned == !old(isPinned)
    {
      isPinned := !isPinned;
    }

    /** The user types into the countdown line edit, which accepts any text
        while it is not read-only. */
    method EditText(t: string)
      requires Valid() && isCountdown && !readOnly
      modifies this`text
      ensures Valid()
      ensures text == t
    {
      text := t;
    }
  }
}
