# BackStraightener countdown timer — Dafny model

BackStraightener is a one-screen Android app: three number wheels (hours,
minutes, seconds), a start button, and a vibration when the countdown ends.
All of its logic is in `MainActivity.kt`. This project models the timer
logic of that activity and proves what it does:

- `convertTimeToMillis` and the total `resetTimer` stores in `countdownStartTime` (module `TimeUnits`);
- the wheel bounds, the `DecimalFormat("00")` label arrays and `initializeTimer` (module `WheelLabels`);
- `findInput`, the search for the text field inside a picker's view tree (module `ViewSearch`);
- the activity's state and handlers: `resetTimer`, `startTimer`, `onPressStart`, the seconds listener,
  and the timer's `onTick`/`onFinish` (class `Countdown.CountdownController`);
- Kotlin's `Int`/`Long` widths, `Long` division rounding toward zero and `Long.toInt()` (module `KotlinInts`).

The pickers, the platform timer and the vibrator are observed through
fields of the controller: `hoursValue`, `minutesValue`, `secondsValue`,
`secondsEnabled`, `timerDurationMillis`, `timerStartCount`, `vibrateCount`.
`ScrollHour`, `ScrollMinute` and `ScrollSecond` stand for the user turning a
wheel: the widget keeps the value in the wheel's range, ignores a disabled
wheel, and calls the seconds listener only when the value changes. They are
the widget's behaviour, not code of this file. `PressStartTwice` is a small
client that shows what callers can conclude from the contracts.

What the code does, where it differs from the app's stated intent:

- The countdown runs for `secondPicked` seconds only. The hour and minute
  wheels feed `countdownStartTime`, and nothing reads that field.
- The "do not start twice" guard in `onPressStart` never blocks, because
  `resetTimer` clears `startPressed` just before the guard reads it. Every
  press builds and starts a new timer.
- `onTick` shows the whole seconds left on the seconds wheel only. No
  hours or minutes carry happens, and the wheel change does not reach the
  listener, so `secondPicked` keeps the user's choice.
- `findInput` recurses into child groups but discards the result. It
  returns only a direct child that is an `EditText`, the first in index order.

## Model

| member | source | states |
|---|---|---|
| KotlinInts.TruncDiv | app/src/main/java/com/example/backstraightener/MainActivity.kt:129 | `Long` division rounds toward zero: for a non-negative dividend q*1000 <= p < q*1000+1000, for a negative one the mirror image |
| KotlinInts.LongToInt | app/src/main/java/com/example/backstraightener/MainActivity.kt:130 | `toInt()` keeps the low 32 bits and is the identity on values that fit an `Int` |
| TimeUnits.ConvertTimeToMillis | app/src/main/java/com/example/backstraightener/MainActivity.kt:106-111 | "hour" gives n·60·60·1000 ms, "minute" n·60·1000 ms, any other tag n·1000 ms; the `Long` result never overflows for any `Int` |
| TimeUnits.ConvertTimeToMillisRoundTrip | app/src/main/java/com/example/backstraightener/MainActivity.kt:106-111 | dividing the result by the unit's length, as Kotlin divides, gives the wheel value back, negatives included |
| TimeUnits.CountdownStartTime | app/src/main/java/com/example/backstraightener/MainActivity.kt:120-122 | the stored total is h·3600000+m·60000+s·1000 ms, a whole number of seconds |
| TimeUnits.CountdownStartTimeDecomposes | app/src/main/java/com/example/backstraightener/MainActivity.kt:120-122 | for wheels in range the stored start time is h·3600000+m·60000+s·1000, lies in 0..359999000, and h, m, s can be read back from it |
| WheelLabels.Format00RoundTrip | app/src/main/java/com/example/backstraightener/MainActivity.kt:23-26 | each label of 0..99 is two digits and reads back as its number |
| WheelLabels.ParseLabelRoundTrip | app/src/main/java/com/example/backstraightener/MainActivity.kt:23-26 | every two-digit string is the label of the number it reads as |
| WheelLabels.Format00 | app/src/main/java/com/example/backstraightener/MainActivity.kt:23-26 | `dec.format(i)` for 0..99 is two digit characters whose decimal value is i |
| WheelLabels.Labels | app/src/main/java/com/example/backstraightener/MainActivity.kt:24-26 | the label array has `maxVal` entries |
| WheelLabels.LabelsShowTheirIndex | app/src/main/java/com/example/backstraightener/MainActivity.kt:24-26 | entry i is i zero-padded to two digits, and no two entries coincide |
| WheelLabels.InitializeTimer | app/src/main/java/com/example/backstraightener/MainActivity.kt:77-82 | the picker holds exactly minVal..maxVal-1 and shows the given labels |
| WheelLabels.ConfiguredWheel | app/src/main/java/com/example/backstraightener/MainActivity.kt:50-63 | each wheel `onCreate` sets up with `maxVal` labels holds exactly 0..maxVal-1 and has `maxVal` labels |
| WheelLabels.ConfiguredWheelShowsItsValues | app/src/main/java/com/example/backstraightener/MainActivity.kt:77-82 | a wheel set up by `initializeTimer` holds exactly minVal..maxVal-1, has one label per value and shows each value as its own label |
| WheelLabels.WheelRanges | app/src/main/java/com/example/backstraightener/MainActivity.kt:18-26 | hours run over 0..99, minutes and seconds over 0..59 |
| ViewSearch.FindInput | app/src/main/java/com/example/backstraightener/MainActivity.kt:176-187 | the loop with its discarded recursive call returns the first direct child that is an `EditText`, or null |
| ViewSearch.FirstEditTextIsFirst | app/src/main/java/com/example/backstraightener/MainActivity.kt:176-187 | the result is null exactly when no direct child is an `EditText`; otherwise it is such a child with none before it |
| ViewSearch.NoDirectEditTextFindsNothing | app/src/main/java/com/example/backstraightener/MainActivity.kt:178-186 | with no direct `EditText` child the result is null, whatever the child groups contain |
| ViewSearch.GroupContentsIgnored | app/src/main/java/com/example/backstraightener/MainActivity.kt:180-181 | replacing a child group by any other group never changes the result |
| ViewSearch.NestedEditTextIsMissed | app/src/main/java/com/example/backstraightener/MainActivity.kt:180-181 | a text field one group down is in the tree but is never returned |
| Countdown.CountdownController.constructor | app/src/main/java/com/example/backstraightener/MainActivity.kt:37-63 | the field initialisers and the three `initializeTimer` calls: wheels configured, start time 6000, nothing started |
| Countdown.CountdownController.OnSecondValueChanged | app/src/main/java/com/example/backstraightener/MainActivity.kt:64-66 | the listener sets `secondPicked` to the new value and changes nothing else |
| Countdown.CountdownController.ResetTimer | app/src/main/java/com/example/backstraightener/MainActivity.kt:118-140 | the start time is the total of the three wheels; and lies in 0..359999000; the new timer ticks every 1000 ms for `secondPicked`·1000 ms; `startPressed` is cleared |
| Countdown.CountdownController.StartTimer | app/src/main/java/com/example/backstraightener/MainActivity.kt:142-145 | one more timer start and `startPressed` set; before any timer is built the `lateinit` access fails and nothing changes |
| Countdown.CountdownController.OnPressStart | app/src/main/java/com/example/backstraightener/MainActivity.kt:152-158 | every press, whatever `startPressed` was, starts exactly one more timer lasting `secondPicked` seconds, independent of the hour and minute wheels |
| Countdown.CountdownController.OnTick | app/src/main/java/com/example/backstraightener/MainActivity.kt:127-131 | the seconds wheel is disabled and shows the whole seconds left (p0/1000 rounded toward zero), which stays in 0..59 |
| Countdown.CountdownController.OnFinish | app/src/main/java/com/example/backstraightener/MainActivity.kt:133-136 | the seconds wheel is enabled again and the phone vibrates exactly once more |
| Countdown.CountdownController.VibratePhone | app/src/main/java/com/example/backstraightener/MainActivity.kt:164-172 | one more vibration |

## Left out

- Activity lifecycle and view lookup (`onCreate`'s `setContentView`, `findViewById`): platform plumbing. The constructor stands for the state `onCreate` leaves.
- `changeKeyboardType` setting `inputType` on the found field: a UI side effect; the search it relies on is modelled.
- The platform `CountDownTimer`'s scheduling: ticks and the finish are explicit calls carrying the remaining milliseconds. Not modelled: that a timer of zero duration finishes at once without ticking, that the timer of an earlier press is never cancelled and keeps ticking after a new one is built, and that each started timer finishes once.
- `vibratePhone`'s system-service lookup, its SDK-version branch and the 1000 ms length: a device call, observed only as a count.
- `DecimalFormat` in general: the labels are specified for 0..99, the only values the arrays hold, and with ASCII digits; `DecimalFormat` uses the default locale's digits (Arabic-Indic digits in an Arabic locale, for one), which the model does not capture.
- `NumberPicker`'s own handling of an out-of-range `value` assignment (clamping or wrapping): the values the code assigns are always in range, so the model records them as assigned.
- OnTick: takes the time left as below one minute. Every timer the activity builds lasts at most 59000 ms and the platform timer reports only time left of such a timer; the model does not capture that bound from the timer itself.
- The unused field `countdownInterval`: the code passes the literal 1000 to the timer, and so does the model.
