/**
 * The three number wheels: their bounds, the label arrays built with
 * `DecimalFormat("00")`, and `initializeTimer`, which gives a wheel its
 * range and labels.
 */
module WheelLabels {
  import opened Wrappers

  const MinVal: int := 0
  const MaxHour: int := 100
  const MaxMinute: int := 60
  const MaxSecond: int := 60

  /** The character of a decimal digit. */
  function DigitChar(d: nat): (c: char)
    requires d < 10
  {
    (48 + d) as char
  }

  predicate IsDigit(c: char) {
    '0' <= c <= '9'
  }

  /** `DecimalFormat("00").format(i)` for the values a wheel shows (0 to 99). */
  function Format00(i: nat): (shown: string)
    requires i < 100
    ensures |shown| == 2 && IsDigit(shown[0]) && IsDigit(shown[1])
    ensures 10 * (shown[0] as int - 48) + (shown[1] as int - 48) == i
  {
    [DigitChar(i / 10), DigitChar(i % 10)]
  }

  /** Reads a two-digit label back as the number it shows. */
  function ParseLabel(shown: string): (v: Option<nat>)
    ensures v.Some? ==> v.value < 100
  {
    if |shown| == 2 && IsDigit(shown[0]) && IsDigit(shown[1])
    then Some(10 * (shown[0] as int - 48) + (shown[1] as int - 48))
    else None
  }

  /** Every label is two digits and reads back as the number it was made from. */
  lemma Format00RoundTrip(i: nat)
    requires i < 100
    ensures |Format00(i)| == 2 && IsDigit(Format00(i)[0]) && IsDigit(Format00(i)[1])
    ensures ParseLabel(Format00(i)) == Some(i)
  {
    assert Format00(i)[0] as int - 48 == i / 10;
    assert Format00(i)[1] as int - 48 == i % 10;
  }

  /** Conversely, every string that reads as a number is that number's label. */
  lemma ParseLabelRoundTrip(shown: string)
    requires ParseLabel(shown).Some?
    ensures Format00(ParseLabel(shown).value) == shown
  {
    var v := ParseLabel(shown).value;
    var hi, lo := shown[0] as int - 48, shown[1] as int - 48;
    assert v / 10 == hi && v % 10 == lo;
    assert Format00(v)[0] == shown[0] && Format00(v)[1] == shown[1];
  }

  /** The label array `Array(n) { i -> dec.format(i) }`. */
  function Labels(n: nat): (labels: seq<string>)
    requires n <= 100
    ensures |labels| == n
  {
    seq(n, i requires 0 <= i < n => Format00(i))
  }

  /** Label `i` of the array shows `i` zero-padded to two digits, so no two labels coincide. */
  lemma LabelsShowTheirIndex(n: nat)
    requires n <= 100
    ensures forall i :: 0 <= i < n ==> |Labels(n)[i]| == 2 && ParseLabel(Labels(n)[i]) == Some(i)
    ensures forall i, j :: 0 <= i < j < n ==> Labels(n)[i] != Labels(n)[j]
  {
    forall i | 0 <= i < n
      ensures |Labels(n)[i]| == 2 && ParseLabel(Labels(n)[i]) == Some(i)
    {
      Format00RoundTrip(i);
    }
  }

  /** The configuration `initializeTimer` gives a number picker. */
  datatype Wheel = Wheel(minValue: int, maxValue: int, displayedValues: seq<string>)
  {
    /** The values the picker can hold. */
    predicate Holds(v: int) {
      minValue <= v <= maxValue
    }

    /** The label the picker shows for value `v`. */
    function LabelOf(v: int): (shown: string)
      requires Holds(v) && v - minValue < |displayedValues|
    {
      displayedValues[v - minValue]
    }
  }

  /** `initializeTimer(np, minVal, maxVal, values)`: the last selectable value is `maxVal - 1`. */
  function InitializeTimer(minVal: int, maxVal: int, values: seq<string>): (w: Wheel)
    ensures forall v :: w.Holds(v) <==> minVal <= v < maxVal
    ensures w.minValue == minVal && w.displayedValues == values
  {
    Wheel(minVal, maxVal - 1, values)
  }

  /** The wheel built for `maxVal` labels, as `onCreate` builds each of the three. */
  function ConfiguredWheel(maxVal: nat): (w: Wheel)
    requires maxVal <= 100
    ensures forall v :: w.Holds(v) <==> 0 <= v < maxVal
    ensures |w.displayedValues| == maxVal
  {
    InitializeTimer(MinVal, maxVal, Labels(maxVal))
  }

  /**
   * A wheel set up with `Labels(maxVal)` holds exactly `0 .. maxVal - 1`,
   * has one label per selectable value, and shows each value as its own
   * two-digit label.
   */
  lemma ConfiguredWheelShowsItsValues(maxVal: nat)
    requires 0 < maxVal <= 100
    ensures forall v :: ConfiguredWheel(maxVal).Holds(v) <==> 0 <= v < maxVal
    ensures |ConfiguredWheel(maxVal).displayedValues|
         == ConfiguredWheel(maxVal).maxValue - ConfiguredWheel(maxVal).minValue + 1
    ensures forall v :: 0 <= v < maxVal ==> ParseLabel(ConfiguredWheel(maxVal).LabelOf(v)) == Some(v)
  {
    LabelsShowTheirIndex(maxVal);
  }

  /** The hour wheel runs over 0..99, the minute and second wheels over 0..59. */
  lemma WheelRanges()
    ensures forall v :: ConfiguredWheel(MaxHour).Holds(v) <==> 0 <= v <= 99
    ensures forall v :: ConfiguredWheel(MaxMinute).Holds(v) <==> 0 <= v <= 59
    ensures forall v :: ConfiguredWheel(MaxSecond).Holds(v) <==> 0 <= v <= 59
    ensures ConfiguredWheel(MaxHour).LabelOf(7) == "07"
    ensures ConfiguredWheel(MaxSecond).LabelOf(45) == "45"
  {
  }
}
