/**
 * The recording timer shown while a candidate records an answer: the
 * "MM:SS" label and the colour that warns as the answer grows long.
 */
module RecordingControls {
  import opened Text

  /** `formatTime(seconds)` for the whole, non-negative seconds the recorder counts. */
  function FormatTime(seconds: nat): (r: string)
    ensures |r| >= 5 && r[|r| - 3] == ':'
  {
    PadStart(NatToString(seconds / 60), 2, '0') + ":" + PadStart(NatToString(seconds % 60), 2, '0')
  }

  /** The text before the colon. */
  function MinutesField(r: string): string
    requires |r| >= 3
  {
    r[..|r| - 3]
  }

  /** The two characters after the colon. */
  function SecondsField(r: string): string
    requires |r| >= 3
  {
    r[|r| - 2..]
  }

  /** A number printed and padded on the left with zeros to `width` keeps its value. */
  lemma PaddedValue(n: nat, width: nat)
    ensures var p := PadStart(NatToString(n), width, '0');
      AllDigits(p) && DigitsValue(p) == n && |p| >= width && |p| >= |NatToString(n)|
  {
    var s := NatToString(n);
    NatToStringValue(n);
    if |s| < width {
      LeadingZerosValue(width - |s|, s);
    }
  }

  /** The seconds field is two digits worth `seconds % 60`. */
  lemma SecondsFieldTwoDigits(seconds: nat)
    ensures var f := SecondsField(FormatTime(seconds));
      |f| == 2 && AllDigits(f) && DigitsValue(f) == seconds % 60
  {
    var r := FormatTime(seconds);
    var sec := PadStart(NatToString(seconds % 60), 2, '0');
    PaddedValue(seconds % 60, 2);
    assert |sec| == 2;
    assert SecondsField(r) == sec;
  }

  /**
   * The minutes field is `seconds / 60` padded to at least two digits and never
   * cut short: it is at least as long as the minutes printed plainly.
   */
  lemma MinutesFieldWhole(seconds: nat)
    ensures var f := MinutesField(FormatTime(seconds));
      |f| >= 2 && |f| >= |NatToString(seconds / 60)| && AllDigits(f) && DigitsValue(f) == seconds / 60
  {
    var r := FormatTime(seconds);
    var min := PadStart(NatToString(seconds / 60), 2, '0');
    PaddedValue(seconds / 60, 2);
    PaddedValue(seconds % 60, 2);
    assert MinutesField(r) == min;
  }

  /** Below 100 minutes the label is exactly "MM:SS". */
  lemma FiveCharacters(seconds: nat)
    requires seconds < 6000
    ensures |FormatTime(seconds)| == 5
  {
    PaddedValue(seconds / 60, 2);
    PaddedValue(seconds % 60, 2);
  }

  /** Reading the label back as minutes * 60 + seconds gives the time. */
  lemma FormatTimeReadsBack(seconds: nat)
    ensures var r := FormatTime(seconds);
      AllDigits(MinutesField(r)) && AllDigits(SecondsField(r)) &&
      DigitsValue(MinutesField(r)) * 60 + DigitsValue(SecondsField(r)) == seconds
  {
    SecondsFieldTwoDigits(seconds);
    MinutesFieldWhole(seconds);
  }

  const White: string := "text-white"
  const Yellow: string := "text-yellow-400"
  const Red: string := "text-red-400"

  /** `getTimeColor()` for the current recording time. */
  function TimeColor(recordingTime: int): (c: string)
    ensures c in {White, Yellow, Red}
  {
    if recordingTime < 30 then White
    else if recordingTime < 60 then Yellow
    else Red
  }

  /** White under half a minute, yellow up to a minute, red from a minute on. */
  lemma TimeColorBands(t: int)
    ensures TimeColor(t) == White <==> t < 30
    ensures TimeColor(t) == Yellow <==> 30 <= t < 60
    ensures TimeColor(t) == Red <==> t >= 60
  {
  }
}
