/**
 * The timer logic of the app's single screen: the state the activity keeps
 * in its fields, the start button's handler and the countdown's tick and
 * finish callbacks.
 *
 * The number pickers, the platform timer and the vibrator are observed
 * through fields: the values shown on the three wheels, whether the seconds
 * wheel accepts input, the duration of the timer last built, how many times
 * a timer was started and how many times the phone vibrated.
 */
module Countdown {
  import opened KotlinInts
  import opened TimeUnits
  import opened WheelLabels

  /** The initial value of `countdownStartTime`. */
  const InitialCountdownStartTime: int := 6000

  /** The tick interval passed to the timer that `resetTimer` builds. */
  const TickIntervalMillis: int := 1000

  class CountdownController {
    // Wheel configuration, fixed once `onCreate` has run `initializeTimer`.
    var hourWheel: Wheel
    var minuteWheel: Wheel
    var secondWheel: Wheel

    // What the three pickers currently show (`npHour.value`, ...).
    var hoursValue: Int32
    var minutesValue: Int32
    var secondsValue: Int32
    // `npSecond.isEnabled`; the hour and minute wheels are never disabled.
    var secondsEnabled: bool

    // The activity's own fields.
    var secondPicked: Int32
    var countdownStartTime: Int64
    var startPressed: bool

    // The timer in `countDownTimer`: whether one has been built yet (the
    // field is `lateinit`), its duration and its tick interval.
    var timerBuilt: bool
    var timerDurationMillis: Int64
    var timerIntervalMillis: Int64

    // Observations of the platform.
    var timerStartCount: nat
    var vibrateCount: nat

    /**
     * The wheels are configured as `onCreate` configures them, the three
     * wheels and the listener's value lie in the wheels' ranges, and a built
     * timer runs for whole seconds of less than one minute.
     */
    ghost predicate Valid()
      reads this
    {
      && hourWheel == ConfiguredWheel(MaxHour)
      && minuteWheel == ConfiguredWheel(MaxMinute)
      && secondWheel == ConfiguredWheel(MaxSecond)
      && hourWheel.Holds(hoursValue)
      && minuteWheel.Holds(minutesValue)
      && secondWheel.Holds(secondsValue)
      && secondWheel.Holds(secondPicked)
      && (timerBuilt ==>
            && 0 <= timerDurationMillis < MaxSecond * MillisPerSecond
            && timerDurationMillis % MillisPerSecond == 0
            && timerIntervalMillis == TickIntervalMillis)
    }

    /**
     * The activity after `onCreate`: field initialisers, the three wheels set
     * up by `initializeTimer`, every picker at its minimum and enabled.
     */
    constructor ()
      ensures Valid()
      ensures hoursValue == 0 && minutesValue == 0 && secondsValue == 0 && secondsEnabled
      ensures secondPicked == 0 && countdownStartTime == InitialCountdownStartTime && !startPressed
      ensures !timerBuilt && timerStartCount == 0 && vibrateCount == 0
    {
      hourWheel := InitializeTimer(MinVal, MaxHour, Labels(MaxHour));
      minuteWheel := InitializeTimer(MinVal, MaxMinute, Labels(MaxMinute));
      secondWheel := InitializeTimer(MinVal, MaxSecond, Labels(MaxSecond));
      hoursValue, minutesValue, secondsValue := 0, 0, 0;
      secondsEnabled := true;
      secondPicked := 0;
      countdownStartTime := InitialCountdownStartTime;
      startPressed := false;
      timerBuilt := false;
      timerDurationMillis, timerIntervalMillis := 0, 0;
      timerStartCount, vibrateCount := 0, 0;
    }

    /** The user turns the hour wheel to `v`; no listener is attached to it. */
    method ScrollHour(v: Int32)
      requires Valid() && hourWheel.Holds(v)
      modifies this`hoursValue
      ensures Valid() && hoursValue == v
    {
      hoursValue := v;
    }

    /** The user turns the minute wheel to `v`; no listener is attached to it. */
    method ScrollMinute(v: Int32)
      requires Valid() && minuteWheel.Holds(v)
      modifies this`minutesValue
      ensures Valid() && minutesValue == v
    {
      minutesValue := v;
    }

    /**
     * The user turns the seconds wheel to `v`. A disabled wheel ignores the
     * gesture; otherwise the picker takes the value and, if it changed,
     * notifies its listener.
     */
    method ScrollSecond(v: Int32)
      requires Valid() && secondWheel.Holds(v)
      modifies this`secondsValue, this`secondPicked
      ensures Valid()
      ensures if old(secondsEnabled) && v != old(secondsValue)
              then secondsValue == v && secondPicked == v
              else secondsValue == old(secondsValue) && secondPicked == old(secondPicked)
    {
      if secondsEnabled && v != secondsValue {
        var before := secondsValue;
        secondsValue := v;
        OnSecondValueChanged(before, v);
      }
    }

    /** The seconds wheel's change listener: it records the new value and nothing else. */
    method OnSecondValueChanged(oldVal: Int32, newVal: Int32)
      requires Valid() && secondWheel.Holds(newVal)
      modifies this`secondPicked
      ensures Valid() && secondPicked == newVal
    {
      secondPicked := newVal;
    }

    /**
     * `resetTimer`: stores the total of the three wheels in
     * `countdownStartTime` (a value nothing reads), builds a new timer whose
     * duration comes from `secondPicked` alone, and clears `startPressed`.
     */
    method ResetTimer()
      requires Valid()
      modifies this`countdownStartTime, this`timerBuilt, this`timerDurationMillis,
               this`timerIntervalMillis, this`startPressed
      ensures Valid()
      ensures countdownStartTime == CountdownStartTime(hoursValue, minutesValue, secondsValue)
      ensures 0 <= countdownStartTime <= MaxCountdownStartTime
      ensures timerBuilt && timerIntervalMillis == TickIntervalMillis
      ensures timerDurationMillis == ConvertTimeToMillis(secondPicked, "second")
      ensures !startPressed
    {
      countdownStartTime := ConvertTimeToMillis(hoursValue, "hour")
        + ConvertTimeToMillis(minutesValue, "minute")
        + ConvertTimeToMillis(secondsValue, "second");
      var test := ConvertTimeToMillis(secondPicked, "second");
      timerBuilt, timerDurationMillis, timerIntervalMillis := true, test, TickIntervalMillis;
      startPressed := false;
    }

    /**
     * `startTimer`: starts the timer in `countDownTimer` and sets
     * `startPressed`. Before any timer has been built the `lateinit` field
     * throws, `ok` is false and nothing changes.
     */
    method StartTimer() returns (ok: bool)
      requires Valid()
      modifies this`timerStartCount, this`startPressed
      ensures Valid()
      ensures ok == timerBuilt
      ensures ok ==> startPressed && timerStartCount == old(timerStartCount) + 1
      ensures !ok ==> startPressed == old(startPressed) && timerStartCount == old(timerStartCount)
    {
      if !timerBuilt {
        return false;
      }
      timerStartCount := timerStartCount + 1;
      startPressed := true;
      ok := true;
    }

    /**
     * `onPressStart`: `resetTimer` clears `startPressed` just before the
     * guard reads it, so every press builds a timer for `secondPicked`
     * seconds and starts it, whether or not a countdown is already running.
     */
    method OnPressStart()
      requires Valid()
      modifies this`countdownStartTime, this`timerBuilt, this`timerDurationMillis,
               this`timerIntervalMillis, this`startPressed, this`timerStartCount
      ensures Valid()
      ensures countdownStartTime == CountdownStartTime(hoursValue, minutesValue, secondsValue)
      ensures 0 <= countdownStartTime <= MaxCountdownStartTime
      ensures timerBuilt && timerIntervalMillis == TickIntervalMillis
      ensures timerDurationMillis == secondPicked * MillisPerSecond
      ensures startPressed && timerStartCount == old(timerStartCount) + 1
    {
      ResetTimer();
      if !startPressed {
        var ok := StartTimer();
      }
    }

    /**
     * The timer's `onTick(p0)`: disables the seconds wheel and shows on it
     * the whole seconds left, `p0 / 1000` rounded toward zero and narrowed
     * to `Int`. The hour and minute wheels are not touched, and the
     * listener is not notified of the programmatic change. The platform
     * timer only reports the time left of a timer this activity built, and
     * every such timer lasts less than a minute.
     */
    method OnTick(p0: Int64)
      requires Valid()
      requires 0 <= p0 < MaxSecond * MillisPerSecond
      modifies this`secondsEnabled, this`secondsValue
      ensures Valid()
      ensures !secondsEnabled
      ensures secondsValue == LongToInt(TruncDiv(p0, MillisPerSecond))
      ensures secondsValue * MillisPerSecond <= p0 < secondsValue * MillisPerSecond + MillisPerSecond
    {
      secondsEnabled := false;
      var timeRemaining := TruncDiv(p0, 1000);
      secondsValue := LongToInt(timeRemaining);
    }

    /** The timer's `onFinish`: re-enables the seconds wheel and vibrates once. */
    method OnFinish()
      requires Valid()
      modifies this`secondsEnabled, this`vibrateCount
      ensures Valid()
      ensures secondsEnabled && vibrateCount == old(vibrateCount) + 1
    {
      secondsEnabled := true;
      VibratePhone();
    }

    /** `vibratePhone`: one vibration of the fixed length, observed as a count. */
    method VibratePhone()
      requires Valid()
      modifies this`vibrateCount
      ensures Valid()
      ensures vibrateCount == old(vibrateCount) + 1
    {
      vibrateCount := vibrateCount + 1;
    }
  }

  /**
   * A user sets 1 h 0 min 5 s and presses start twice: the total is stored
   * but the timers run for 5 s only, and the second press starts a second
   * timer.
   */
  method PressStartTwice()
  {
    var c := new CountdownController();
    c.ScrollHour(1);
    c.ScrollSecond(5);
    c.OnPressStart();
    assert c.countdownStartTime == 3605000;
    assert c.timerDurationMillis == 5000;
    c.OnTick(4500);
    assert c.secondsValue == 4 && !c.secondsEnabled && c.hoursValue == 1;
    c.OnPressStart();
    assert c.timerStartCount == 2 && c.timerDurationMillis == 5000;
    c.OnFinish();
    assert c.secondsEnabled && c.vibrateCount == 1 && c.secondPicked == 5;
  }
}
