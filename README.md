# laptop-lights: the brightness control loop, modelled in Dafny

laptop-lights is a small Linux daemon that drives two backlights, the
display and the keyboard. One consumer loop receives messages from three
producers: a timer that sends `Tick`, a keyboard watcher and a trackpad
watcher. The keyboard watcher turns the four brightness keys into
`DspUp`/`DspDown`/`KbdUp`/`KbdDown` and every other key press into `Input`.
The loop owns seven values:

- `idle` and `idle_time`;
- the last ambient-light reading;
- the tracked display and keyboard levels;
- one override flag per channel.

Depending on the message and the state, it writes decimal levels to the devices' brightness files. Some messages write nothing: activity while active, a tick while idle, and a tick whose reading is unchanged.

The model has five modules:

- `Types`: machine integers, `Option`, `Message` and `BacklightDevice`.
- `Helpers` (`src/helpers.rs`):
  - `step_up` and `step_down`;
  - the integer branch of `als_to_kb`;
  - the step size `max / steps` of `build_device`;
  - the decimal text written to a brightness file and parsed from the sensor file: Rust's `to_string`, `trim_right` and `parse::<u32>`.
- `Input` (`src/input.rs`):
  - the key-event predicates;
  - the `repr(C)` `input_event` record;
  - a strict decoder of the 24 bytes the kernel delivers, with the little-endian and two's-complement layout written out.
- `App` (`src/app.rs`):
  - `KeyMessage` and `KeyboardRead`: the keyboard watcher's classification of one read;
  - `Step` and `Process`: the loop as functions on a `State`, the specification;
  - `Controller`: the loop itself, as a class. It has the seven state fields and a ghost log of every write. Its constructor takes the already-parsed first sensor reading and performs the two initial writes. It has one method per message, plus `Run` over a sequence of deliveries. Each method is proved to do exactly what `Step` or `Process` says.
- `AppProperties`: what the loop guarantees across messages.

Producer threads and the channel are replaced by a sequence of `Delivery`
values. Each delivery pairs a message with the world it is handled in: the
text of the sensor file and whether audio is playing. Several conditions
end the loop in the source. Two of them are modelled, as a `Fatal` outcome
that changes nothing and writes nothing:

- sensor text that does not parse as a `u32` (the `expect` at `src/app.rs:89-90`);
- a `u32` overflow in `step_up`, which panics in a debug build (a release build wraps instead; see "Left out").

The others are I/O failures and are not modelled:

- a failed brightness write (`src/helpers.rs:47-49`, reached from every write in the loop);
- a sensor file that cannot be read (`src/helpers.rs:29-31`);
- the `unwrap` of the shell-out in `media_playing` (`src/helpers.rs:112`).

With a positive `tick_time`, media off and a readable sensor, the first dim
after activity comes on tick number `idle_timeout / tick_time + 2`. With the default settings that is the 14th
quiet tick, not the 13th, even though the clock already reads 65 > 60 after 13 ticks: the test at
`src/app.rs:82` reads the clock before the increment at `src/app.rs:111`.
The model follows the code (`AppProperties.FirstDimOnFourteenthTick`).

## Model

| member | source | states |
|---|---|---|
| Helpers.StepDown | src/helpers.rs:121-123 | the result never exceeds `val`, is at most one step below it, and is exactly `val - step` unless it saturated at 0 |
| Helpers.StepUp | src/helpers.rs:125-132 | the result never exceeds `max`; it is `val + step` exactly when that sum is at most `max`, and `max` otherwise; callers must keep the `u32` sum in range |
| Helpers.StepUpAboveMaxLowers | src/helpers.rs:125-132 | a step up from a level already above the maximum lowers the level to the maximum |
| Helpers.StepDownAfterStepUp | src/helpers.rs:121-132 | stepping down after stepping up never ends above the start, and returns to it when the step up was not capped |
| Helpers.StepUpAfterStepDown | src/helpers.rs:121-132 | stepping up after stepping down never overflows; when the step down did not saturate it never ends above the start, and returns to it when the start is within the maximum; after a saturated step down it lands on the step or the maximum, whichever is lower |
| Helpers.AlsToKb | src/helpers.rs:7-13 | a reading below 5 gives the float policy's tenth of the keyboard maximum; the target is non-zero only for readings below 5, and is within the keyboard maximum when the policy's tenth is |
| Helpers.AlsToKbBrightIsOff | src/helpers.rs:7-13 | every reading of 5 or more switches the keyboard off, whatever its maximum |
| Helpers.BuildDevice | src/helpers.rs:97-104 | zero steps is the division-by-zero failure; otherwise the step is the quotient `max / steps`: `step * steps <= max < (step + 1) * steps`, and 0 when there are more steps than levels |
| Helpers.ToDecimal | src/helpers.rs:46 | the text written for a value is canonical decimal (digits only, no leading zero) and denotes that value |
| Helpers.TrimEnd | src/helpers.rs:34 | trimming keeps a prefix, removes only whitespace, and leaves no trailing whitespace |
| Helpers.TrimEndOfPadded | src/helpers.rs:34 | a text that ends in a non-space, followed by any whitespace, trims back to itself |
| Helpers.ParseDigitsIsDecimal | src/helpers.rs:35 | the digit reader accepts exactly the non-empty all-digit strings, with their decimal value |
| Helpers.ParseU32IsDecimal | src/helpers.rs:35 | a parse succeeds exactly on an optional '+' followed by digits whose value fits in `u32`, and yields that value |
| Helpers.WriteThenRead | src/helpers.rs:27-50 | round trip: the text `write_u32_to_file` writes for any `u32` reads back as the same value |
| Helpers.ReadAcceptsTrailingWhitespace | src/helpers.rs:33-37 | written text followed by trailing whitespace, such as a sysfs newline, still reads back as the value |
| Helpers.CanonicalIsToDecimal | src/helpers.rs:46 | every canonical decimal text is the one written for its value, so writing is onto the canonical texts |
| Helpers.CanonicalParseIsToDecimal | src/helpers.rs:33-46 | a canonical text that parses is exactly the text written for the parsed value |
| Helpers.ReadRejectsBlank | src/helpers.rs:33-37 | an empty or all-whitespace file yields no value |
| Helpers.ReadRejectsLeadingWhitespace | src/helpers.rs:33-37 | leading whitespace makes the read fail, because only trailing whitespace is trimmed |
| Helpers.ParseRejectsNonDigit | src/helpers.rs:35 | any non-digit other than one leading '+' makes the parse fail |
| Helpers.ParseRejectsOverflow | src/helpers.rs:35 | a digit string whose value exceeds the `u32` range is rejected, not wrapped |
| Helpers.ParseAcceptsPlus | src/helpers.rs:35 | one leading '+' is accepted |
| Helpers.ParseAcceptsLeadingZero | src/helpers.rs:35 | leading zeros are accepted and do not change the value |
| Input.ReleaseAndRepeatAreNotPresses | src/input.rs:1-19 | `is_key_event` holds exactly for type 1 and `is_key_press` exactly for value 1, so releases (0) and repeats (2) are not presses |
| Input.Encode | src/input.rs:4-11 | the record of an event is 24 bytes |
| Input.Decode | src/app.rs:127-133 | only a 24-byte read decodes; type, code and value are the little-endian fields at bytes 16-17, 18-19 and 20-23 |
| Input.DecodeEncode | src/input.rs:4-11 | decoding the record of any event recovers every field of it |
| Input.EncodeDecode | src/app.rs:127-133 | every 24-byte read is the record of the event it decodes to, so the layout is a bijection |
| App.KeyMessage | src/app.rs:134-141 | a message is produced exactly for type 1 and value 1; codes 224, 225, 229 and 230 give `DspDown`, `DspUp`, `KbdDown` and `KbdUp`, every other code gives `Input`, and `Tick` never comes from the keyboard |
| App.KeyboardRead | src/app.rs:129-142 | a read not of 24 bytes is a short read, on which the watcher thread panics: that ends the keyboard watcher only, and the loop goes on without key events; a message is sent exactly when bytes 16-17 encode 1 and bytes 20-23 encode 1, and it is the one `KeyMessage` gives for the decoded fields; other 24-byte reads are dropped |
| App.FatalStepIsQuiet | src/app.rs:89-90 | a message that kills the process has changed no state and written nothing |
| App.ProcessFirst | src/app.rs:39-40 | handling a non-empty sequence is its first message followed by the rest, and stops at a fatal one |
| App.Controller.constructor | src/app.rs:24-30 | starts active with no overrides and zero idle time, both levels from the first reading, and logs the display write and then the keyboard write |
| App.Controller.OnDspDown | src/app.rs:41-47 | steps the display down, logs that one write, sets the display override and records activity; nothing else changes |
| App.Controller.OnDspUp | src/app.rs:48-54 | fails, changing nothing, exactly when the `u32` sum overflows; otherwise steps the display up with the cap, logs that one write, sets the display override and records activity |
| App.Controller.OnKbdDown | src/app.rs:55-61 | the keyboard counterpart of `OnDspDown` |
| App.Controller.OnKbdUp | src/app.rs:62-68 | the keyboard counterpart of `OnDspUp` |
| App.Controller.OnInput | src/app.rs:69-79 | clears `idle` and zeroes the clock; writes both tracked levels, display first, exactly when it was idle |
| App.Controller.OnTick | src/app.rs:80-112 | new state, new log entries and failure are those of `TickStep` for the given sensor text and media flag |
| App.Controller.Handle | src/app.rs:40-113 | dispatches one message with the effect `Step` specifies |
| App.Controller.Run | src/app.rs:39-114 | after a sequence of deliveries, the state, the log extension and the failure are those `Process` specifies |
| AppProperties.StepKeyEffects | src/app.rs:41-68 | a step key moves only its own channel, via `step_up`/`step_down`; it logs one write of the new level to that channel, sets that channel's override and records activity; the other channel's level and flag and the ambient reading are kept; only a step up can fail, exactly on overflow |
| AppProperties.StepKeepsOverrides | src/app.rs:40-112 | no message clears an override flag |
| AppProperties.OverridesMonotone | src/app.rs:39-114 | once overridden, a channel stays overridden for the rest of any run |
| AppProperties.OverriddenLevelSurvives | src/app.rs:93-108 | an overridden channel's level changes only through its own step keys; no tick changes it |
| AppProperties.OverriddenLevelFixed | src/app.rs:93-108 | across a run with none of its step keys, an overridden channel keeps its level |
| AppProperties.InputIdempotent | src/app.rs:69-79 | a second `Input` right after another changes nothing and writes nothing |
| AppProperties.DimThenActivityRestores | src/app.rs:69-87 | a dim followed by activity writes the dimmed level and 0, then the untouched pre-dim levels, and returns to the pre-dim state with a zero clock |
| AppProperties.TickDimsExactlyWhenTimedOut | src/app.rs:82-87 | after a tick the loop is idle exactly when it was idle or was active with `idle_time > idle_timeout` (strict) and no media; a dimming tick writes `mult(dim, dsp_val)` and 0 and keeps both levels |
| AppProperties.IdleTickIsQuiet | src/app.rs:80-111 | an idle tick does not depend on the sensor or the media flag, writes nothing, cannot fail and only advances the clock |
| AppProperties.EveryTickAddsTickTime | src/app.rs:80-111 | every tick that completes adds `tick_time` to the clock; a tick fails only when active, not dimming, and the sensor text does not parse |
| AppProperties.ActiveTickFollowsSensor | src/app.rs:88-109 | an active tick records the reading; a channel moves to its target only when the reading changed and it is not overridden; the writes are exactly the changed channels with their new levels, display first; an unchanged reading writes nothing |
| AppProperties.ProcessAppend | src/app.rs:39-114 | handling a concatenation is handling the first part and then, unless it failed, the second |
| AppProperties.QuietTicksStayActive | src/app.rs:82-111 | quiet ticks that each start at or below the timeout leave the loop active and without failure, advancing the clock by one tick each |
| AppProperties.FirstDimTick | src/app.rs:82-111 | from activity with a zero clock, quiet ticks leave the loop active through tick `idle_timeout / tick_time + 1` and dim on the next one |
| AppProperties.FirstDimOnFourteenthTick | src/app.rs:82-111 | with timeout 60 and 5-second ticks, the clock is 65 and the loop still active after 13 quiet ticks; the 14th dims |
| AppProperties.InitialKeyboardWithinMax | src/app.rs:24-30 | the initial keyboard level is within the keyboard maximum, given the policy's tenth is |
| AppProperties.StepKeepsKeyboardWithinMax | src/app.rs:55-108 | no message takes the keyboard level above its maximum |
| AppProperties.KeyboardWithinMax | src/app.rs:39-114 | the keyboard level stays within its maximum over any run |
| AppProperties.ManualStepScenario | src/app.rs:48-50 | a display of maximum 255 in 10 steps has step 25; a step up from 100 tracks and writes 125, whose text is "125" |
| AppProperties.KeyboardReadOfRecord | src/app.rs:129-141 | for the record of any event, the watcher's reaction is decided by the event's type, code and value through `KeyMessage` |

## Left out

- Threads, the channel and the timer (`src/app.rs:33-37`, `src/app.rs:117-122`): the loop consumes a given sequence of deliveries instead.
- The trackpad watcher (`src/app.rs:146-154`): it only sends `Input`, which appears as `Input` deliveries.
- The keyboard watcher's blocking read loop (`src/app.rs:124-145`): one read is modelled by `KeyboardRead`.
- `als_to_dsp`, `mult` and the `0.1 * max` of `als_to_kb` compute in `f32` with truncation. They are the uninterpreted functions of `FloatPolicy`. Nothing is claimed about the display level's range, because `als_to_dsp` has no clamp.
- Helpers.AlsToKb: the bound by the keyboard maximum is stated only under `TenthWithin`, the assumption that the float tenth of a maximum does not exceed it. The same assumption underlies the `KeyboardWithinMax` lemmas.
- The shell-outs `media_playing`, `get_kbd_input`, `get_keyboard`, `get_display` and `get_backlight_device`: the media flag is a field of each delivery's `Env`.
- Opening, reading and writing files, including `get_max`: only the text format and the parse are modelled. An I/O failure panics in the source and is not modelled. The model receives the sensor file's text and models only the failure of the parse.
- The `println!` log line of `write_u32_to_file` and the path of each brightness file: a write names its channel.
- The initial read's `unwrap` (`src/app.rs:24`): the constructor takes the parsed reading, because a failed first read means no loop ever exists.
- App.Controller.OnDspUp: a release build wraps the `u32` sum in `step_up` instead of panicking. The model takes the debug-build panic, as `Fatal.AddOverflow`, and does not model the wrapped value.
- App.Controller.OnKbdUp: the same choice for the keyboard: an overflowing sum is `Fatal.AddOverflow`, and the release-build wrapped value is not modelled.
- Helpers.StepUp: `requires AddFits` excludes the overflowing sum. A debug build panics there, which the loop models as `Fatal.AddOverflow`. The release-build wrapped result is not modelled.
- A short read on the keyboard device panics inside the watcher thread (`src/app.rs:130-131`). It ends only that thread, so later key presses are lost. The model shows the short read as `ShortRead` and does not model the loss of later key events.
- `idle_time` is a `u64` in the source and an unbounded count here. Overflow would take 2^64 seconds and is not modelled.
- `src/settings.rs`, `src/main.rs`, `version` and `run_as_root`, and the `Args` record: configuration, command-line handling and privilege checks. The defaults 60 and 5 appear only in `FirstDimOnFourteenthTick`.
