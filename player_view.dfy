/**
 * `ControlPointView`: the progress bar with its two time labels (total and
 * current) and the play button. The model keeps the fields the view
 * writes: the two durations, the label texts, the seek bar's maximum and
 * progress, and which icon the play button shows.
 */
module PlayerView {
  import opened JavaText
  import opened TimeCodec

  /** The label text before any duration is known. */
  const NO_TIME := "__"

  /**
   * `formatTimeSeconds`: minutes and seconds. Below ten minutes both fields
   * have two digits; from ten minutes on, neither is padded. A negative
   * value takes the first branch.
   */
  function FormatTimeSeconds(seconds: int32): string
  {
    if seconds < 10 then "00:0" + IntToString(seconds)
    else if seconds < 60 then "00:" + IntToString(seconds)
    else
      var minutes := seconds / 60;
      var secs := seconds % 60;
      if minutes < 10 then
        if secs < 10 then "0" + IntToString(minutes) + ":0" + IntToString(secs)
        else "0" + IntToString(minutes) + ":" + IntToString(secs)
      else IntToString(minutes) + ":" + IntToString(secs)
  }

  /** Below ten minutes the label is `MM:SS`, two digits per field. */
  lemma FormatTimeSecondsPadded(seconds: int32)
    requires 0 <= seconds < 600
    ensures FormatTimeSeconds(seconds) == TwoDigits(seconds / 60) + ":" + TwoDigits(seconds % 60)
  {
    UnitFormatDigits(seconds / 60);
    UnitFormatDigits(seconds % 60);
    if seconds < 10 {
      assert FormatTimeSeconds(seconds) == "00" + ":" + UnitFormat(seconds);
    } else if seconds < 60 {
      assert FormatTimeSeconds(seconds) == "00" + ":" + UnitFormat(seconds);
    } else if seconds % 60 < 10 {
      assert FormatTimeSeconds(seconds) == UnitFormat(seconds / 60) + ":" + UnitFormat(seconds % 60);
    } else {
      assert FormatTimeSeconds(seconds) == UnitFormat(seconds / 60) + ":" + UnitFormat(seconds % 60);
    }
  }

  /** From ten minutes on, the seconds field is not padded: 605 seconds read "10:5". */
  lemma FormatTimeSecondsUnpadded(seconds: int32)
    requires seconds >= 600
    ensures FormatTimeSeconds(seconds) == NatToString(seconds / 60) + ":" + NatToString(seconds % 60)
    ensures seconds % 60 < 10 ==> |FormatTimeSeconds(seconds)| == |NatToString(seconds / 60)| + 2
  {
  }

  lemma FormatTimeSecondsExample()
    ensures FormatTimeSeconds(605) == "10:5"
  {
    assert NatToString(10) == "10";
  }

  /** The label splits into a minutes field and a seconds field, both plain non-negative literals. */
  lemma FormatTimeSecondsFields(seconds: int32) returns (a: string, b: string)
    requires seconds >= 0
    ensures FormatTimeSeconds(seconds) == a + ":" + b
    ensures IsDigits(a) && IsDigits(b)
    ensures IsJavaIntLiteral(a) && JavaIntValue(a) == seconds / 60
    ensures IsJavaIntLiteral(b) && JavaIntValue(b) == seconds % 60
  {
    var m: int32 := seconds / 60;
    var s: int32 := seconds % 60;
    UnitFormatDigits(m);
    UnitFormatDigits(s);
    if seconds < 600 {
      FormatTimeSecondsPadded(seconds);
      a, b := UnitFormat(m), UnitFormat(s);
    } else {
      a, b := UnitFormat(m), IntToString(s);
      IntToStringValue(s);
    }
  }

  lemma DigitsHaveNoSeparator(s: string)
    requires IsDigits(s)
    ensures ':' !in s && '.' !in s
  {
  }

  /**
   * The controller's time parser reads every non-negative label back as the
   * seconds it shows, padded or not.
   */
  lemma FormatTimeSecondsRoundTrip(seconds: int32)
    requires seconds >= 0
    ensures TimeParseable(FormatTimeSeconds(seconds)) && ParseTime(FormatTimeSeconds(seconds)) == seconds
  {
    var a, b := FormatTimeSecondsFields(seconds);
    DigitsHaveNoSeparator(a);
    DigitsHaveNoSeparator(b);
    ParseTimeTwoFields(a, b);
    assert 60 * (seconds / 60) + seconds % 60 == seconds;
  }

  class ControlPointView {
    var totalDuration: int32
    var currentDuration: int32
    /** The texts of the total and the current time labels. */
    var durationText: string
    var currentDurationText: string
    var seekMax: int32
    var seekProgress: int32
    /** The play button shows the pause icon. */
    var showsPause: bool

    /**
     * Each label shows its duration as `formatTimeSeconds` renders it, or
     * the placeholder while that duration is the initial zero.
     */
    predicate Valid()
      reads this
    {
      (durationText == FormatTimeSeconds(totalDuration) || (durationText == NO_TIME && totalDuration == 0)) &&
      (currentDurationText == FormatTimeSeconds(currentDuration) || (currentDurationText == NO_TIME && currentDuration == 0))
    }

    /** The constructor's `init` ends with `reset`. */
    constructor()
      ensures Valid()
      ensures totalDuration == 0 && currentDuration == 0
      ensures durationText == NO_TIME && currentDurationText == NO_TIME
      ensures seekMax == 100 && seekProgress == 0 && !showsPause
    {
      totalDuration := 0;
      currentDuration := 0;
      durationText := NO_TIME;
      currentDurationText := NO_TIME;
      seekMax := 100;
      seekProgress := 0;
      showsPause := false;
    }

    method SetDuration(totalTimeSeconds: int32)
      modifies this
      ensures Valid()
      ensures totalDuration == totalTimeSeconds && currentDuration == 0 && seekMax == totalTimeSeconds
      ensures durationText == FormatTimeSeconds(totalTimeSeconds) && currentDurationText == "00:00"
      ensures seekProgress == old(seekProgress) && showsPause == old(showsPause)
    {
      seekMax := totalTimeSeconds;
      totalDuration := totalTimeSeconds;
      currentDuration := 0;
      durationText := FormatTimeSeconds(totalDuration);
      assert IntToString(0) == "0";
      currentDurationText := FormatTimeSeconds(currentDuration);
    }

    method Reset()
      modifies this
      ensures Valid()
      ensures totalDuration == 0 && currentDuration == 0
      ensures durationText == NO_TIME && currentDurationText == NO_TIME
      ensures seekMax == 100 && seekProgress == 0 && !showsPause
    {
      durationText := NO_TIME;
      currentDurationText := NO_TIME;
      seekMax := 100;
      seekProgress := 0;
      UpdatePlayBtnStatus(false);
      totalDuration := 0;
      currentDuration := 0;
    }

    method UpdateProcess(timeSeconds: int32)
      requires Valid()
      modifies this
      ensures Valid()
      ensures currentDuration == timeSeconds && seekProgress == timeSeconds
      ensures currentDurationText == FormatTimeSeconds(timeSeconds)
      ensures totalDuration == old(totalDuration) && durationText == old(durationText)
      ensures seekMax == old(seekMax) && showsPause == old(showsPause)
    {
      currentDurationText := FormatTimeSeconds(timeSeconds);
      seekProgress := timeSeconds;
      currentDuration := timeSeconds;
    }

    method UpdatePlayBtnStatus(isPlaying: bool)
      modifies this
      ensures showsPause == isPlaying
      ensures totalDuration == old(totalDuration) && currentDuration == old(currentDuration)
      ensures durationText == old(durationText) && currentDurationText == old(currentDurationText)
      ensures seekMax == old(seekMax) && seekProgress == old(seekProgress)
    {
      showsPause := isPlaying;
    }

    /**
     * `getCurrentDuration`: the last progress shown, which the activity
     * hands to `resume` as the position to continue from.
     */
    method GetCurrentDuration() returns (seconds: int32)
      requires Valid()
      ensures seconds == currentDuration
      ensures seconds >= 0 && currentDurationText != NO_TIME ==>
        TimeParseable(currentDurationText) && ParseTime(currentDurationText) == seconds
    {
      seconds := currentDuration;
      if seconds >= 0 {
        FormatTimeSecondsRoundTrip(seconds);
      }
    }
  }

  /** The current label read back by the controller's parser gives what `getCurrentDuration` returns. */
  method ShownProgressMatches(timeSeconds: int32) returns (shown: int32, read: int32)
    requires timeSeconds >= 0
    ensures shown == read == timeSeconds
  {
    var v := new ControlPointView();
    v.UpdateProcess(timeSeconds);
    shown := v.GetCurrentDuration();
    FormatTimeSecondsRoundTrip(timeSeconds);
    read := ParseTime(v.currentDurationText);
  }
}
