# Stopwatch widget: time-keeping state machine

This project models the core of the desktop stopwatch widget in
`Timer_develop/stopwatch.py`: the `Stopwatch` class's state machine for
counting up and counting down, its `MM:SS` formatter, and the `M:S` parser
that accepts a countdown entry or rolls it back.

- `time_format.dfy` (module `TimeFormat`) holds the pure parts:
  - `Clock` values and `Total`, a time as a number of seconds;
  - `FormatTime`, which is `format_time` (Python's `f"{n:02d}"` on each field);
  - `Split`, which is Python's `str.split(':')`, with Join as its inverse;
  - `ParseInt`, which is Python's `int()` on sign-and-digit strings;
  - `ParseTime`, the parse step of `update_countdown_time`;
  - the round-trip lemmas that connect the formatter and the parser.
- `stopwatch.dfy` (module `StopwatchWidget`) holds the class `Stopwatch`.
  - Its fields are those of the widget. It has one method per handler, and each method updates the fields in place.
  - Each Qt widget becomes the state it holds:
    - the QTimer becomes `isRunning`;
    - each button's enabled state is a boolean;
    - the visible time display (the label while counting up, the line edit while counting down) becomes the `text` it shows;
    - the line edit's read-only flag becomes `readOnly`;
    - the countdown-finished background becomes `finished`.
  - `Valid()` is the invariant every handler keeps:
    - both times are normalised (minutes non-negative, seconds in 0..59);
    - the mode and pin buttons are disabled while the clock runs, and start is enabled;
    - a finished countdown is stopped, with start, mode and pin all disabled, so only a reset enables them again;
    - a running countdown is read-only;
    - a locked countdown entry parses to the current time.
- `scenarios.dfy` (module `StopwatchScenarios`) drives fresh widgets through whole runs:
  - the startup demo;
  - counting up;
  - a countdown to zero and its reset;
  - a pause, a resume and a reset;
  - Return pressed after a finish;
  - a refused entry.

The handlers have no guards of their own; each precondition states when its trigger can fire:
- `UpdateTime` requires a running clock, because the QTimer delivers ticks only between `timer.start` and `timer.stop`.
- `StartPauseTimer`, `SwitchMode` and `TogglePin` require their button to be enabled, because a disabled button delivers no clicks.
- `UpdateCountdownTime` requires countdown mode, because the line edit whose Return key runs it exists only then.
- `ResetTimer` requires only part of the invariant, because the reset button is never disabled and `SwitchMode` calls it from an intermediate state.

Behaviour the model keeps on purpose:

- **Resuming a paused countdown re-commits the paused time.** Starting in countdown mode always re-parses the displayed text (`Timer_develop/stopwatch.py:148-149`). After a pause, that text is the remaining time, so the remaining time becomes the stored entry. A reset therefore returns to the value committed by the most recent start, not to the value first typed. `StartPauseTimer` states this, and `PauseResumeReset` shows it over a whole run.
- **A countdown finishes one tick after it reaches 00:00.** Counting down from 00:05 reaches 00:00 on the fifth tick. The sixth tick finds 00:00, stops the clock, disables start and applies the finished style (`Timer_develop/stopwatch.py:128-132`). `CountdownToZero` proves `Total(target) + 1` ticks for any entry, and `FiveSecondCountdown` proves 6 ticks for 00:05.
- **Only a reset enables start, mode and pin again after a finish.** Start is disabled at 00:00, and the mode and pin buttons stay disabled from the run. Only `reset_timer` enables them again (`Timer_develop/stopwatch.py:179-182`).
- **Return in the read-only line edit still commits the shown time.** `setReadOnly(True)` blocks typing but not Return, and Return stays connected to `update_countdown_time` (`Timer_develop/stopwatch.py:150`, `212`). So Return on a running, paused or finished countdown makes the shown time the entry. `UpdateCountdownTime` requires only countdown mode. `ReturnAfterFinish` shows that Return after a finish makes 00:00 the entry, which a reset then restores.
- **Pausing does not clear the read-only flag; only reset does.** While paused, therefore, the entry cannot be edited.
- **The demo leaves 05:00 behind as the stored countdown entry.** The startup demo switches modes twice and toggles the pin twice, so it ends counting up at 00:00 with 05:00 as the stored countdown entry.

## Model

| member | source | states |
|---|---|---|
| TimeFormat.DigitsValueOf | Timer_develop/stopwatch.py:117 | the decimal digits of a number are all digits, there is exactly one of them for numbers below ten, and they read back as that number |
| TimeFormat.Pad2 | Timer_develop/stopwatch.py:117 | one `:02d` field: the decimal digits, zero-padded to width 2, with a leading minus and no padding for a negative number; its properties are stated by Pad2Shape and ParseIntPad2 |
| TimeFormat.Pad2Shape | Timer_develop/stopwatch.py:117 | a `:02d` field is at least two characters wide, exactly two for 0..99, all digits when not negative, and holds no colon and no surrounding whitespace |
| TimeFormat.ParseIntPad2 | Timer_develop/stopwatch.py:117 | `int()` reads every `:02d` field back as the integer it was made from, negative ones included |
| TimeFormat.FormatTime | Timer_develop/stopwatch.py:116-117 | `format_time`: the two padded fields joined by a colon; ParseFormat proves the parser reads it back exactly for normalised times |
| TimeFormat.Split | Timer_develop/stopwatch.py:231 | `text.split(':')` always yields at least one piece; SplitJoin, SplitCount and SplitPieces state that the pieces rebuild the text, number one more than the colons and hold no colon |
| TimeFormat.ParseInt | Timer_develop/stopwatch.py:231 | `int()` inside the `map`, accepting optional ASCII whitespace, an optional sign and ASCII digits; ParseIntPad2 proves it reads every formatted field back |
| TimeFormat.SplitJoin | Timer_develop/stopwatch.py:231 | joining the pieces of `str.split` with the separator gives back the original string |
| TimeFormat.SplitCount | Timer_develop/stopwatch.py:231 | `str.split` yields exactly one piece more than there are separators, so empty pieces are kept |
| TimeFormat.SplitPieces | Timer_develop/stopwatch.py:231 | no piece produced by `str.split` contains the separator |
| TimeFormat.SplitWhole | Timer_develop/stopwatch.py:231 | a string without the separator splits into itself alone |
| TimeFormat.SplitPair | Timer_develop/stopwatch.py:231 | two separator-free strings joined by one separator split back into exactly those two |
| TimeFormat.ParseTime | Timer_develop/stopwatch.py:231-232 | every accepted entry is a normalised time: minutes >= 0 and 0 <= seconds < 60 |
| TimeFormat.ParseTimeNeedsOneColon | Timer_develop/stopwatch.py:231 | text with zero colons or with two or more colons is refused, as the two-name unpacking raises ValueError |
| TimeFormat.OneColonSplits | Timer_develop/stopwatch.py:231 | every text with exactly one colon is a colon-free left side, the colon and a colon-free right side, so the two lemmas around it together describe the parse of every text |
| TimeFormat.ParseTimeFields | Timer_develop/stopwatch.py:231-238 | text with one colon is accepted exactly when both sides are integers with minutes >= 0 and seconds in 0..59, and then yields those integers |
| TimeFormat.ParseFormat | Timer_develop/stopwatch.py:231-232 | the formatted time of a normalised clock parses back to that clock, and the formatted time of any other pair of integers is refused |
| TimeFormat.ParseStable | Timer_develop/stopwatch.py:228-248 | reformatting an accepted entry, as the widget does on every tick, does not change what it parses to |
| StopwatchWidget.Stopwatch.constructor | Timer_develop/stopwatch.py:24-61 | a new widget counts up from 00:00 with entry 00:00, idle, unpinned, all buttons enabled, showing the formatted time, not finished |
| StopwatchWidget.Stopwatch.UpdateTimeDisplay | Timer_develop/stopwatch.py:243-248 | the visible display shows the formatted current time and nothing else changes |
| StopwatchWidget.Stopwatch.UpdateTime | Timer_develop/stopwatch.py:119-139 | counting up adds one second, wrapping 59 to 0 with a carry into the minutes; counting down away from 00:00 takes one second off, borrowing a minute at :00; counting down at 00:00 keeps the time, stops the clock, disables start and sets the finished style; the invariant is kept (a finished countdown has start, mode and pin all disabled), the display is refreshed, and entry, mode, pin and the mode and pin buttons are untouched; it runs only while the clock runs |
| StopwatchWidget.Stopwatch.UpdateCountdownTime | Timer_develop/stopwatch.py:228-241 | accepted text becomes both the current time and the entry and stays as typed; refused text leaves both times alone and is replaced by the formatted current time; either way the display afterwards parses to the current time |
| StopwatchWidget.Stopwatch.StartPauseTimer | Timer_develop/stopwatch.py:145-163 | on a click of the enabled start button, the running flag flips and the mode and pin buttons are enabled exactly when idle; pausing or starting a count-up touches neither times nor display; starting a countdown first commits the display text and then locks it, so resuming after a pause makes the paused time the entry |
| StopwatchWidget.Stopwatch.ResetTimer | Timer_develop/stopwatch.py:165-182 | the widget ends idle with start, mode and pin enabled and the formatted time showing; a countdown returns to its entry, unlocked and unfinished, and a count-up returns to 00:00 |
| StopwatchWidget.Stopwatch.SwitchMode | Timer_develop/stopwatch.py:184-223 | on a click of the enabled mode button, the mode flips and the widget ends idle with every button enabled; entering countdown sets time and entry to 05:00, editable and unfinished; leaving it resets to 00:00 and keeps the entry |
| StopwatchWidget.Stopwatch.TogglePin | Timer_develop/stopwatch.py:277-288 | on a click of the enabled pin button, the pinned flag flips and nothing else changes |
| StopwatchWidget.Stopwatch.EditText | Timer_develop/stopwatch.py:206-213 | typing into the editable countdown line edit replaces its text and keeps the invariant |
| StopwatchScenarios.Launch | Timer_develop/stopwatch.py:97-114 | after the startup demo (mode, mode, pin, pin), the widget counts up at 00:00, idle, unpinned, with every button enabled and entry 05:00 |
| StopwatchScenarios.StartCountUp | Timer_develop/stopwatch.py:145-156 | a new widget started in count-up mode runs from 00:00 with the formatted time showing |
| StopwatchScenarios.TickCountUp | Timer_develop/stopwatch.py:119-125 | n ticks of a running count-up add exactly n seconds, keep it running and keep the display formatted |
| StopwatchScenarios.CountUp | Timer_develop/stopwatch.py:119-125 | n ticks from 00:00 show n div 60 minutes and n mod 60 seconds |
| StopwatchScenarios.CountUpFor125Seconds | Timer_develop/stopwatch.py:119-125 | 125 ticks from 00:00 show "02:05" |
| StopwatchScenarios.StartCountdown | Timer_develop/stopwatch.py:145-152 | a typed normalised entry, once started, is the current time and the entry, locked and running |
| StopwatchScenarios.RunToStop | Timer_develop/stopwatch.py:126-139 | ticking a running countdown until it stops takes one tick per second left plus one, and ends at 00:00, stopped, start disabled, finished, with the entry kept |
| StopwatchScenarios.CountdownToZero | Timer_develop/stopwatch.py:126-139 | a countdown from any normalised entry stops after exactly Total(entry) + 1 ticks, at 00:00 with the finished style and start, mode and pin all disabled; a reset then restores the entry |
| StopwatchScenarios.FiveSecondCountdown | Timer_develop/stopwatch.py:128-132 | a countdown from 00:05 stops on the sixth tick at 00:00, and a reset shows 00:05 again |
| StopwatchScenarios.ReturnAfterFinish | Timer_develop/stopwatch.py:212 | Return after a finish commits the shown 00:00 as the entry, so a reset shows 00:00, not the original entry when it was not 00:00 |
| StopwatchScenarios.TickCountdown | Timer_develop/stopwatch.py:133-138 | k ticks of a running, locked countdown with at least k seconds left take off exactly k seconds and leave it running and locked |
| StopwatchScenarios.PauseResumeReset | Timer_develop/stopwatch.py:145-150 | pausing after k ticks and resuming makes the paused time the entry, so a reset returns to Total(entry) - k seconds, not to the original entry when k > 0 |
| StopwatchScenarios.RejectSeventySeconds | Timer_develop/stopwatch.py:228-241 | entering "5:70" leaves time and entry at 05:00 and the display shows "05:00" again |
| StopwatchScenarios.SeventySecondsRefused | Timer_develop/stopwatch.py:232 | "5:70" is refused because its seconds are out of range |

## Left out

- Qt widget construction, the layouts, and replacing the label by the line edit and back (`deleteLater`, `insertWidget`). Only the text of whichever display is visible is kept, as `text`.
- Button label texts ('S'/'P', 'SC'/'SCD', 'x'/'o') and the cursor position of the line edit. They are cosmetic.
- `apply_stylesheet`, the colours, and `countdown_finished`. Only the finished background is kept, as the boolean `finished`.
- `adjust_font_size` and `resizeEvent`. They compute a font size with floating-point scaling from the window size.
- The window-flag changes, `resize` and `show` in `toggle_pin`, and the screen positioning in `showEvent`. These are window-manager calls. The pin button's checked state is modelled by the flip of `isPinned`.
- The QTimer and the event loop. A tick is a call of `UpdateTime`, and the startup demo's `singleShot` chain is a sequence of calls in `Launch`. The 100 ms delays between demo clicks are not modelled.
- `closeEvent`: it stops the QTimer and accepts the close event. Closing the window is not modelled.
- TimeFormat.ParseInt: refuses some strings that Python's `int()` accepts:
  - non-ASCII whitespace around the number;
  - underscores between digits;
  - non-ASCII decimal digits.
  
  It accepts optional ASCII whitespace, an optional sign and ASCII digits. It also has no limit on the number of digits, where Python raises beyond 4300.
