# ChibiTomo timer core, modelled in Dafny

ChibiTomo is a desktop Pomodoro companion. A frameless widget counts down
focus, break and long-break phases, shows the remaining time and the session
number, and raises notifications. It raises one when half of a phase is
left, one when a quarter is left, and one when a phase is over. Its avatar
image is posterized to a few colour levels.

This project models the timer and phase state machine of the `ChibiTomo`
class, the notification choice of `_notify`, the display texts, and
`DropCircle._posterize`.

- **Timer** (`timer.dfy`): the state machine as values.
  - Types: the `Durations` record, the phases, and the timer fields as a `Core` value.
  - Operations: one function per state-changing operation (`EnterPhase`, `Start`, `Pause`, `Reset`, `NextPhase`, `Tick`, `Run`).
  - The lemmas cover a single tick, whole phases (how many ticks a phase lasts, and on which tick each threshold notification fires) and the long-break cycle.
- **Widget** (`widget.dfy`): class `ChibiTomo`, whose fields the methods update in place.
  - Fields: the timer fields, the screen values (time label, session label, ring colour and fraction), the stored notification preferences, and a log `alerts` of every notification raised.
  - Every method is proved to change the timer fields exactly as the matching Timer function does.
  - The class invariant `Valid` states three things: the Timer invariant holds, the screen shows the state, and the notifications raised in the current phase are exactly the threshold notifications whose flags are set.
- **Notify** (`notify.dfy`): the three message pools, and the title-keyword choice of a pool. It also covers the choice of outputs `_notify` delivers to (bubble or tray, beep or not), and the completion alert of `_tick`.
- **Display** (`display.dfy`): the `MM:SS` label, the `"{m}m {s}s left"` message, the `Session n/total` label, the ring colours and the remaining-time fraction.
- **Posterize** (`posterize.dfy`): `_posterize` as a method over a two-dimensional pixel array.
- **Text** and **Arith**: the pieces of Python's string and integer semantics the rest needs.
  - `str(n)`, `f"{n:02d}"`, `lower`, `title`, one-character `replace`, and the substring test.
  - Facts about multiples and remainders.

How long a phase runs is taken from the code, which differs from the intuitive reading.
- A phase of T seconds lasts T + 1 ticks: the tick that takes `secs` to 0 only decrements, and the phase changes on the next tick, which sees `secs <= 0`.
- With the default 25-minute focus, focus therefore ends on tick 1501, not on tick 1500 (`Timer.DefaultScenarioEnd`).
- `_posterize` does not keep alpha, although it reads alpha back; see Findings.

## Model

| member | source | states |
|---|---|---|
| Timer.Durations | main.py:90-95 | the four-field durations record; definition |
| Timer.Default | main.py:91-95 | the dataclass defaults 25/5/15/4; properties in `Timer.Presets` and the `DefaultScenario` lemmas |
| Timer.InDialogRange | main.py:305-308 | the spin-box ranges of the custom-durations dialog; definition, used as the precondition of `ShowCustomSettings` |
| Timer.Presets | main.py:463 | both mode presets are within the dialog's ranges, and resetting under the 50/10 preset gives 3000 s of focus whose 50% threshold is met at exactly 1500 s left |
| Timer.EntrySeconds | main.py:670-675 | the seconds `set_phase` gives each phase; definition, tied to `total` in `Timer.TotalSeconds` |
| Timer.EnterPhase | main.py:665-686 | `set_phase` on the timer fields; definition, properties in `Timer.EnterPhaseIsFresh` and `Timer.FreshIsQuiet` |
| Timer.Start | main.py:651-652 | `start()` on the timer fields; definition, properties in `Timer.StartPausePreserve` |
| Timer.Pause | main.py:654-655 | `pause()` on the timer fields; definition, properties in `Timer.StartPausePreserve` |
| Timer.Reset | main.py:657-663 | `reset()` on the timer fields; definition, properties in `Timer.ResetState` |
| Timer.NextPhase | main.py:607-610 | the next phase and session count after a completed phase; definition, properties in `Timer.PhaseChangeTick` and `Timer.Cycle` |
| Timer.Tick | main.py:597-616 | `_tick()` on the timer fields; definition, properties in `Timer.DecrementTick`, `Timer.PhaseChangeTick`, `Timer.TickPreservesInv` and the whole-phase lemmas |
| Timer.TotalSeconds | main.py:622-626 | the phase length `_update_display` divides by equals the seconds `set_phase` gives the phase, and is at least 60 for positive durations |
| Timer.Refresh | main.py:630-640 | a refresh changes only the two flags; each ends up set exactly when it was set or its notification fires (timer active, threshold met, flag clear) |
| Timer.FreshIsQuiet | main.py:665-686 | on entry to a phase no threshold notification fires even with the timer running, a refresh changes nothing, and the invariant holds |
| Timer.EnterPhaseIsFresh | main.py:665-686 | `set_phase(p)` gives p's full duration (focus, break, else long break), clears both flags, keeps count and timer state, and establishes the invariant |
| Timer.ResetState | main.py:657-663 | `reset` leaves the timer stopped in focus, with `secs == focus*60`, no sessions and both flags clear, and the invariant holds |
| Timer.StartPausePreserve | main.py:651-655 | `start` and `pause` change only whether the timer runs, setting it and clearing it, and keep the invariant |
| Timer.DecrementTick | main.py:614-616 | a tick with time left takes exactly one second off and keeps phase, session count and timer state; each flag is then set exactly when it was set or the timer runs and its threshold is met |
| Timer.PhaseChangeTick | main.py:598-613 | a tick with no time left: after focus the count goes up by one and the next phase is long exactly when the count is a multiple of `sessions`, else break; after a break it is focus with the count kept; the new phase is fresh and running |
| Timer.TickPreservesInv | main.py:597-616 | every tick keeps the invariant: `0 <= secs <= duration(phase)*60`, each flag only once its threshold is met, the 25% flag only with the 50% flag |
| Timer.StoppedTickFiresNothing | main.py:632 | with the timer stopped a tick raises no flag and fires no notification |
| Timer.PhaseTimeline | main.py:597-616 | n ticks into a phase of T seconds entered fresh, T - n seconds remain in the same phase, and each flag is set exactly when the timer runs and its threshold is met at that time |
| Timer.PhaseLastsTotalPlusOne | main.py:597-616 | a running phase of T seconds reads 0 after T ticks, still in that phase, and tick T + 1 enters the next phase fresh and running |
| Timer.ThresholdTicks | main.py:632-640 | in a running phase of T seconds the 50% notification fires on exactly one tick, T - T/2, and the 25% one exactly on tick T - T/4 |
| Timer.Cycle | main.py:607-610 | from a reset the phases alternate focus and break, and the break after the j-th completed focus is long exactly when j is a multiple of `sessions` |
| Timer.DefaultScenario | main.py:632-637 | with the default 25/5/15/4 durations, the 50% flag is raised on tick 750 after reset and start, not before |
| Timer.DefaultScenarioQuarter | main.py:638-640 | with the default durations the 25% flag is raised on tick 1125, not before |
| Timer.DefaultScenarioEnd | main.py:597-616 | with the default durations the clock reads 0 in focus after 1500 ticks, and tick 1501 enters a running 300-second break with one session counted |
| Display.TimeText | main.py:619-620 | the `MM:SS` countdown label; definition, properties in `Display.TimeTextReadsBack` |
| Display.LeftText | main.py:636 | the `"{m}m {s}s left"` message of the threshold notifications; definition |
| Display.SessionLabel | main.py:646 | the `Session n/total` label; definition, properties in `Display.SessionLabelReadsBack` |
| Display.PhaseColor | main.py:337 | the ring colour of each phase, `PHASE_COLORS`; definition, shown by the ring under `Widget.ChibiTomo.SetPhase` |
| Display.MinSec | main.py:619 | `divmod(max(0, secs), 60)`: `m*60 + s == max(0, secs)` and `s < 60` |
| Display.TimeTextReadsBack | main.py:619-620 | the `MM:SS` label has at least two minute digits and exactly two second digits, below 60, which read back as the minutes and seconds of `max(0, secs)` |
| Display.SessionNumber | main.py:646 | the session number `session_count % sessions + 1` lies in `[1, sessions]` |
| Display.SessionNumberCycle | main.py:646 | the label reads `sessions/sessions` exactly in the focus phase that a long break follows, and the number goes up by one per completed focus, wrapping to 1 |
| Display.SessionLabelReadsBack | main.py:646 | the session label is `Session `, the session number, `/` and `sessions`, each read back from its digits |
| Display.Progress | main.py:627-628 | the remaining fraction lies in [0, 1] under the invariant and is 1 on entry; it is at most 1/2 (1/4) exactly when the integer half (quarter) threshold is met |
| Notify.IsHalfwayTitle | main.py:829 | the halfway-pool test on the title; definition, properties in `Notify.HalfwayTestOnLowerSuffices` and `Notify.ChooseTextPools` |
| Notify.IsFinalTitle | main.py:831 | the final-stretch-pool test on the title; definition, properties in `Notify.ChooseTextPools` and `Notify.FinalStretchTitle` |
| Notify.IsDoneTitle | main.py:833 | the completion-pool test on the title; definition, used by `Notify.ChooseText` |
| Notify.FormattedCompletionTitle | main.py:601 | the title `_tick` formats from the phase name; definition, evaluated in `Notify.CompletionTitles` |
| Notify.CompletionAlert | main.py:600-605 | the tray message and beep `_tick` raises when a phase is over; definition, properties in `Notify.CompletionAlertBypassesPreferences` |
| Notify.ThresholdTitlesDiffer | main.py:636-639 | the two threshold titles differ |
| Notify.Messages | main.py:397-431 | each message pool holds ten messages |
| Notify.ChooseText | main.py:826-834 | the chosen bubble text, when drawn from a pool, is the element at the random pick |
| Notify.ChooseTextPools | main.py:826-834 | a title with "50%" draws from the halfway pool; one with "25%" and neither "50%" nor "halfway" in any case draws from the final-stretch pool; the text is always a pool message or `title: message` |
| Notify.HalfwayTestOnLowerSuffices | main.py:828-829 | a title passes the halfway test exactly when its lower-case form contains "50%" or "halfway" |
| Notify.HalfwayTitleDrawsHalfway | main.py:829-830 | the 50% notification draws its bubble text from the halfway pool, at the random pick |
| Notify.FinalStretchTitle | main.py:829-832 | a lower-case title with "25%" and without the characters `0` and `h` draws from the final-stretch pool |
| Notify.QuarterTitleDrawsFinal | main.py:831-832 | the 25% notification draws its bubble text from the final-stretch pool, at the random pick |
| Notify.SelectSinks | main.py:839-851 | the bubble is used exactly when popups are on, the tray exactly when they are off, and a beep happens exactly when sound is on |
| Notify.NotifyAlert | main.py:819-851 | one `_notify` call delivers a bubble with the chosen text exactly when popups are on, else the plain title and message to the tray, and a beep exactly when sound is on |
| Notify.LowerOfLowercase | main.py:828 | lower-casing leaves a string without capitals unchanged |
| Notify.CompletionTitles | main.py:601 | for every phase the title `_tick` formats from the phase name equals the tabulated completion title: `Focus Over!`, `Break Over!`, `Long Break Over!` (the per-phase evaluation steps are helper lemmas) |
| Notify.CompletionAlertBypassesPreferences | main.py:599-605 | the completion alert goes to the tray with a beep and never to the bubble, whatever the preferences, so it is not what `_notify` would deliver with popups on or sound off; its title is neither threshold title |
| Text.Decimal | main.py:646 | `str(n)` is a non-empty run of digits without a leading zero, one digit exactly below 10 |
| Text.DecimalRoundTrip | main.py:646 | reading back `str(n)` gives n |
| Text.Pad2 | main.py:620 | `f"{n:02d}"` is at least two digits, exactly two below 100, and reads back as n |
| Text.Lower | main.py:828 | `lower()` keeps the length and lower-cases each character |
| Text.ReplaceChar | main.py:601 | `replace('_', ' ')` keeps the length and replaces exactly the underscores |
| Text.TitleCase | main.py:601 | `title()` upper-cases each letter that starts a word and lower-cases the others |
| Text.MissingCharNotContained | main.py:829-833 | a string lacking one character of a pattern does not contain the pattern |
| Text.ContainedInLower | main.py:829 | a pattern without capitals found in the title is also found in its lower-case form |
| Posterize.Step | main.py:285 | `255 // max(1, levels - 1)` lies in [0, 255], is positive for up to 256 levels, and is 51 for six |
| Posterize.Quantize | main.py:288-290 | `(c // step) * step` is a multiple of `step`, at most c and less than `step` below it |
| Posterize.QuantizeUnique | main.py:288-290 | that multiple is the only one with these bounds |
| Posterize.QuantizeIdempotent | main.py:288-290 | quantising twice equals quantising once |
| Posterize.ColorFromRgb | main.py:287 | `QColor(out.pixel(x, y))` keeps the colour channels and sets alpha to 255 |
| Posterize.PosterizedAsWritten | main.py:287-291 | the pixel written as the code stands is always opaque |
| Posterize.AsWrittenMakesOpaque | main.py:287-291 | as written, a transparent black pixel comes out opaque |
| Posterize.Posterized | main.py:288-291 | each colour channel is rounded down to a multiple of `step`, less than `step` below the input, and alpha is kept |
| Posterize.PosterizedIdempotent | main.py:288-291 | posterizing twice equals posterizing once, and a posterized pixel is a fixed point |
| Posterize.PosterizeImage | main.py:279-293 | the corrected `_posterize` (see Findings): a new image of the same size, filled by the nested row and column loops, whose every pixel is `Posterized` of the input pixel, alpha kept; as written the source makes every pixel opaque (`PosterizedAsWritten`) |
| Widget.ChibiTomo.constructor | main.py:339-441 | starts from the defaults, takes the stored durations and preferences, then resets: stopped in focus with full time, no sessions, both flags clear, invariant holding, no alerts |
| Widget.ChibiTomo.Notify | main.py:819-854 | appends one alert to the log: what `_notify` delivers for the title and message under the stored preferences, for some random pick |
| Widget.ChibiTomo.UpdateDisplay | main.py:618-649 | the timer fields move as `Timer.Refresh`; the labels and ring show the state; the alerts raised are the 50% notification and then the 25% one, each exactly when it fires, with the remaining time as message; the invariant is kept |
| Widget.ChibiTomo.ShowTime | main.py:619-628 | the time label shows `MM:SS` and the ring the remaining fraction; the timer fields are not touched |
| Widget.ChibiTomo.NotifyDue | main.py:630-643 | the flags move as `Timer.Refresh`, and the log grows by exactly the notifications that fire, 50% first |
| Widget.ChibiTomo.ShowSession | main.py:645-649 | the session label is shown, with the current session number, exactly in focus, and hidden otherwise |
| Widget.ChibiTomo.Start | main.py:651-652 | the timer fields move as `Timer.Start`, and the invariant is kept |
| Widget.ChibiTomo.Pause | main.py:654-655 | the timer fields move as `Timer.Pause`, and the invariant is kept |
| Widget.ChibiTomo.SetPhase | main.py:665-686 | the timer fields move as `Timer.EnterPhase`; the invariant holds; no alert is raised; the alerts of the new phase start here |
| Widget.ChibiTomo.EnterFresh | main.py:666-685 | phase p with its full time and both flags clear; the ring shows p's colour and p's full fraction |
| Widget.ChibiTomo.Reset | main.py:657-663 | the timer fields move as `Timer.Reset`; durations, preferences and alert log are kept; the invariant holds |
| Widget.ChibiTomo.ApplyMode | main.py:688-690 | the new durations are adopted, the timer fields move as `Timer.Reset` under them, and the invariant holds |
| Widget.ChibiTomo.ShowCustomSettings | main.py:692-696 | when the dialog is accepted the spin-box durations are adopted and the timer is reset, with preferences and alert log kept; when it is cancelled nothing changes |
| Widget.ChibiTomo.Tick | main.py:597-616 | the timer fields move as `Timer.Tick`; the invariant is kept; with no time left the one alert raised is the completion alert of the phase that ended; with time left the alerts raised are the threshold notifications that fire |
| Widget.ChibiTomo.AdvancePhase | main.py:598-613 | stops the timer, logs the completion alert, enters the next phase and restarts the timer: the timer fields move as `Timer.Tick` |
| Widget.PhaseAlertsOnce | main.py:632-640 | in every valid state no notification title occurs twice among the alerts of the current phase: each threshold notification fires at most once per phase |

## Left out

- Qt widgets, layout, stylesheets, painting and the property animations (bobbing, ring and bubble fades) are GUI rendering and are not modelled. The ring is represented by its colour and its remaining fraction.
- Floating point is not modelled. `progress` is kept as an exact fraction, and the 0.5 and 0.25 thresholds as `2*secs <= total` and `4*secs <= total`. These agree with the float comparison for the integer phase lengths the dialog allows.
- The clamps of `DropCircle.set_progress`, the opacity clamp and the scale arithmetic are floating-point UI math and are not modelled.
- The 1-second `QTimer` is a boolean field. Time passes only when `Tick` is called.
- `random.choice` is a nondeterministic index below the pool size (`:|` in `Notify`); the functions take that index as a parameter.
- QSettings is I/O. The stored durations and the popup and sound preferences become constructor parameters and fields; `_notify` reads the stored preferences, modelled as those fields. The toggle lambdas that write them are not modelled.
- The bubble window, its geometry and timing, the tray icon and `QApplication.beep` are devices. A delivered notification is logged as an `Alert` value (title, bubble text, tray balloon, beep). The bubble text is recorded as a pool and an index, and `Render` gives its characters.
- `_notify` is modelled with a tray that exists; `__init__` creates it in `_make_tray` before the first notification.
- The `try`/`except` blocks around `_notify` and its pool choice are not modelled. The modelled string operations cannot raise, so those paths are unreachable.
- Case mapping (`lower`, `title`) covers ASCII letters only. Every title the widget passes to `_notify` is ASCII.
- `set_phase` falls back to the long-break duration and to `#ffffff` for a phase string outside the three, and `total` falls back to the short break. The phase is a datatype of the three phases, so neither fallback is reachable; `Timer.TotalSeconds` proves the two selections agree on all three.
- `animate_progress` only affects animation and is not modelled.
- Widget.ChibiTomo.ApplyMode, Widget.ChibiTomo.Reset, Widget.ChibiTomo.SetPhase: require positive durations (every mode preset, the dialog's ranges and the dataclass defaults give them). Non-positive durations loaded from the settings store are not modelled.
- Widget.ChibiTomo.UpdateDisplay, Widget.ChibiTomo.Tick: `_update_display` is split into the helper methods `ShowTime`, `NotifyDue` and `ShowSession`, and the phase-change branch of `_tick` into `AdvancePhase`. The helpers follow the source's statements in order.
- Posterize.PosterizeImage: requires `levels <= 256`. With more levels `step` is 0, and `_posterize` raises `ZeroDivisionError`; that error path is not modelled. The widget always calls it with the default of six levels.
- The `convertToFormat` call of `_posterize` and all other image loading, cropping, scaling and masking are foreign QImage calls. The input is an ARGB32 pixel grid.
- Drag and drop, window dragging and locking, the file dialog and `closeEvent` are window plumbing and are not modelled.

## Findings

| source | as written | input that shows it | evidently intended | confidence | as-written member | corrected member |
|---|---|---|---|---|---|---|
| main.py:287-291 | the colour is rebuilt with `QColor(out.pixel(x, y))`. `pixel` returns a `QRgb`, and this constructor ignores its alpha and sets alpha to 255, so `c.alpha()` is always 255 and every pixel comes out opaque | a fully transparent pixel (0, 0, 0, 0) with six levels becomes (0, 0, 0, 255), so a transparent background of the loaded image turns opaque black before the circular mask is applied | alpha read with `QColor.fromRgba(out.pixel(x, y))` (or `out.pixelColor(x, y)`) and kept | medium, not executed | Posterize.PosterizedAsWritten, Posterize.AsWrittenMakesOpaque | Posterize.Posterized, Posterize.PosterizeImage |
