/**
 * Conversions between seconds and the `H:MM:SS:FF` timecode the player shows,
 * the validation of a start time taken from the query string, and the short
 * `[H:]M:SS` form used for durations.
 */
module VideoTimeService {
  import opened Wrappers
  import opened Numbers
  import opened Text
  import opened QueryString

  /** The frame rate every conversion assumes when none is given. */
  const DefaultFrameRate: real := 30.0

  /** The four numbers `seconds2String` prints, before padding. */
  datatype Timecode = Timecode(hours: int, minutes: int, seconds: int, frames: int)

  /** `time.toFixed(3) < 0`: still below zero once rounded to milliseconds. */
  predicate ShowsNegative(time: real) {
    time < 0.0 && Round(-time * 1000.0) > 0
  }

  /** On exact reals the bracketed form starts at minus half a millisecond. */
  lemma ShowsNegativeThreshold(time: real)
    ensures ShowsNegative(time) <==> time <= -0.0005
  {
    if time <= -0.0005 {
      assert -time * 1000.0 >= 0.5;
    }
  }

  /**
   * The fields of a non-negative time as `seconds2String` computes them,
   * carry included: a frame count that rounds up to a whole second resets
   * to 0 and bumps the seconds; reaching 60 seconds bumps the minutes but
   * leaves the seconds at 60, and the minutes never carry into the hours.
   */
  function Fields(time: real, frameRate: real): Timecode
    requires time >= 0.0
  {
    var totalSeconds := Floor(time);
    var leftOver := time - totalSeconds as real;
    var hours := totalSeconds / 3600;
    var minutes := (totalSeconds / 60) % 60;
    var seconds := totalSeconds % 60;
    var frames := Round(frameRate * leftOver);
    if frames >= Round(frameRate) then
      Timecode(hours, if seconds + 1 >= 60 then minutes + 1 else minutes, seconds + 1, 0)
    else
      Timecode(hours, minutes, seconds, frames)
  }

  /** `n < 10 ? '0' + n : n`. */
  function Pad2(n: int): string {
    if n < 10 then "0" + IntToString(n) else IntToString(n)
  }

  /** `${hours}:${minutes}:${seconds}:${frames}` after padding. */
  function Format(tc: Timecode): string {
    IntToString(tc.hours) + ":" + Pad2(tc.minutes) + ":" + Pad2(tc.seconds) + ":" + Pad2(tc.frames)
  }

  /** `seconds2String(time, frameRate)`; `None` stands for `NaN` in and `undefined` out. */
  function Seconds2String(time: Option<real>, frameRate: real): (r: Option<string>)
    ensures r.Some? <==> time.Some?
  {
    match time
    case None => None
    case Some(t) =>
      var text := Format(Fields(Abs(t), frameRate));
      Some(if ShowsNegative(t) then "(-" + text + ")" else text)
  }

  /** `parseInt(timeBits[i], 10) || 0` with `timeBits` the reversed split. */
  function FieldFromRight(bits: seq<string>, i: nat): int {
    if i < |bits| then IntOrZero(bits[|bits| - 1 - i]) else 0
  }

  /**
   * `string2Seconds(timeString, frameRate)`; `None` is the `NaN` or infinite
   * number a zero frame rate gives (the frames are divided by it).
   */
  function String2Seconds(timeString: string, frameRate: real): (r: Option<real>)
    ensures r.Some? <==> frameRate != 0.0
  {
    if frameRate == 0.0 then None
    else Some(TimecodeSeconds(ReadTimecode(timeString), frameRate))
  }

  /** The fields `string2Seconds` reads: frames, seconds, minutes, hours from the right. */
  function ReadTimecode(timeString: string): Timecode {
    var bits := Split(timeString, ':');
    Timecode(FieldFromRight(bits, 3), FieldFromRight(bits, 2), FieldFromRight(bits, 1), FieldFromRight(bits, 0))
  }

  /** A string whose fields are those of `tc` reads back as the seconds of `tc`. */
  lemma ReadsTimecode(text: string, tc: Timecode, frameRate: real)
    requires frameRate != 0.0 && ReadTimecode(text) == tc
    ensures String2Seconds(text, frameRate) == Some(TimecodeSeconds(tc, frameRate))
  {
  }

  /** The seconds a timecode stands for when read back. */
  function TimecodeSeconds(tc: Timecode, frameRate: real): real
    requires frameRate != 0.0
  {
    (tc.hours * 3600 + tc.minutes * 60 + tc.seconds) as real + tc.frames as real / frameRate
  }

  // ---------------------------------------------------------------------
  // Properties of seconds2String and string2Seconds

  /** The bracketed form is the form of the absolute value, in brackets, exactly from -0.0005 down. */
  lemma NegativeForm(t: real, frameRate: real)
    ensures Seconds2String(Some(t), frameRate) ==
      var text := Seconds2String(Some(Abs(t)), frameRate).value;
      Some(if t <= -0.0005 then "(-" + text + ")" else text)
  {
    ShowsNegativeThreshold(t);
  }

  /** Whole seconds split into hours, minutes and seconds add back up. */
  lemma Decompose(total: int)
    requires total >= 0
    ensures (total / 3600) * 3600 + ((total / 60) % 60) * 60 + total % 60 == total
  {
    var q := total / 60;
    assert q / 60 == total / 3600 by {
      var r := total % 60;
      assert total == 3600 * (q / 60) + 60 * (q % 60) + r;
    }
  }

  /**
   * Bounds of the printed fields: frames stay below `round(frameRate)`,
   * seconds and minutes stop at 60, and seconds show 60 only after a carry
   * that also bumped the minutes.
   */
  lemma FieldBounds(time: real, frameRate: real)
    requires time >= 0.0 && frameRate >= 0.5
    ensures var tc := Fields(time, frameRate);
      && tc.hours >= 0
      && 0 <= tc.minutes <= 60
      && 0 <= tc.seconds <= 60
      && 0 <= tc.frames < Round(frameRate)
      && (tc.minutes == 60 ==> tc.seconds == 60)
  {
    var total := Floor(time);
    var leftOver := time - total as real;
    assert 0.0 <= leftOver < 1.0;
    MulMono(0.0, leftOver, frameRate);
    Commute(leftOver, frameRate);
    assert frameRate * leftOver >= 0.0;
    assert 0 <= total % 60 < 60 && 0 <= (total / 60) % 60 < 60;
  }

  /** A timecode with non-negative fields prints as four `:`-separated numerals. */
  lemma FormatParts(tc: Timecode)
    requires tc.hours >= 0 && tc.minutes >= 0 && tc.seconds >= 0 && tc.frames >= 0
    ensures Split(Format(tc), ':') == [IntToString(tc.hours), Pad2(tc.minutes), Pad2(tc.seconds), Pad2(tc.frames)]
  {
    SplitFour(IntToString(tc.hours), Pad2(tc.minutes), Pad2(tc.seconds), Pad2(tc.frames), ':');
  }

  /** A padded field reads back as its value. */
  lemma Pad2Value(n: int)
    requires n >= 0
    ensures IsNumeral(Pad2(n)) && IntOrZero(Pad2(n)) == n
  {
    var d := NatToString(n);
    NatToStringValue(n);
    if n < 10 {
      var p := "0" + d;
      assert p[..|p| - 1] == "0";
      assert IsNumeral(p);
      ParseNumeral(p);
    } else {
      ParseNumeral(d);
    }
  }

  /** `string2Seconds` reads a printed timecode back field by field. */
  lemma FormatReadsBack(tc: Timecode, frameRate: real)
    requires tc.hours >= 0 && tc.minutes >= 0 && tc.seconds >= 0 && tc.frames >= 0
    requires frameRate != 0.0
    ensures String2Seconds(Format(tc), frameRate) == Some(TimecodeSeconds(tc, frameRate))
  {
    FormatParts(tc);
    HoursValue(tc.hours);
    Pad2Value(tc.minutes);
    Pad2Value(tc.seconds);
    Pad2Value(tc.frames);
    assert ReadTimecode(Format(tc)) == tc;
  }

  /** The printed hours read back as their value. */
  lemma HoursValue(hours: int)
    requires hours >= 0
    ensures IntOrZero(IntToString(hours)) == hours
  {
    NatToStringValue(hours);
    ParseNumeral(NatToString(hours));
  }

  /** A fraction whose frame count rounds up to a whole second is within one frame of it. */
  lemma LastFrame(frac: real, frameRate: real)
    requires 0.0 <= frac < 1.0 && frameRate >= 0.5
    requires Round(frameRate * frac) >= Round(frameRate)
    ensures 0.0 < 1.0 - frac < 1.0 / frameRate
  {
    var rest := 1.0 - frac;
    Commute(frameRate, frac);
    Distribute(1.0, frac, frameRate);
    var p := rest * frameRate;
    assert p < 1.0;
    BelowReciprocal(rest, frameRate);
  }

  /** Without a carry the fields are the whole seconds split up and the rounded frames. */
  lemma NoCarryFields(time: real, frameRate: real)
    requires time >= 0.0
    requires Round(frameRate * (time - Floor(time) as real)) < Round(frameRate)
    ensures var total := Floor(time);
      Fields(time, frameRate) == Timecode(total / 3600, (total / 60) % 60, total % 60, Round(frameRate * (time - total as real)))
  {
  }

  /** Without a carry the fields stand for the whole seconds plus the rounded frames. */
  lemma NoCarryValue(time: real, frameRate: real)
    requires time >= 0.0 && frameRate >= 0.5
    requires Round(frameRate * (time - Floor(time) as real)) < Round(frameRate)
    ensures var tc := Fields(time, frameRate);
      && tc.seconds < 60
      && -1.0 / frameRate < TimecodeSeconds(tc, frameRate) - time < 1.0 / frameRate
  {
    var total := Floor(time);
    var frac := time - total as real;
    var frames := Round(frameRate * frac);
    var tc := Fields(time, frameRate);
    NoCarryFields(time, frameRate);
    assert tc == Timecode(total / 3600, (total / 60) % 60, total % 60, frames);
    assert tc.hours * 3600 + tc.minutes * 60 + tc.seconds == total by {
      Decompose(total);
    }
    assert -1.0 / frameRate < frames as real / frameRate - frac < 1.0 / frameRate by {
      Commute(frameRate, frac);
      WithinOneUnit(frames as real, frac, frameRate);
    }
  }

  /** After a carry the fields stand for the next whole second, or 60 seconds more on second 59. */
  lemma CarryValue(time: real, frameRate: real)
    requires time >= 0.0 && frameRate >= 0.5
    requires Round(frameRate * (time - Floor(time) as real)) >= Round(frameRate)
    ensures var tc := Fields(time, frameRate);
      && (tc.seconds < 60 ==> TimecodeSeconds(tc, frameRate) == (Floor(time) + 1) as real)
      && (tc.seconds == 60 ==> TimecodeSeconds(tc, frameRate) == (Floor(time) + 61) as real)
  {
    var total := Floor(time);
    var tc := Fields(time, frameRate);
    assert tc.frames == 0;
    Decompose(total);
    if total % 60 == 59 {
      assert tc.hours * 3600 + tc.minutes * 60 + tc.seconds == total + 61;
    } else {
      assert tc.hours * 3600 + tc.minutes * 60 + tc.seconds == total + 1;
    }
  }

  /**
   * What the fields stand for: within one frame of the time, except that a
   * carry landing on second 59 prints 60 seconds on top of a bumped minute
   * and so overshoots by 60 seconds.
   */
  lemma FieldsValue(time: real, frameRate: real)
    requires time >= 0.0 && frameRate >= 0.5
    ensures var v := TimecodeSeconds(Fields(time, frameRate), frameRate);
      && (Fields(time, frameRate).seconds < 60 ==> -1.0 / frameRate < v - time < 1.0 / frameRate)
      && (Fields(time, frameRate).seconds == 60 ==> 60.0 < v - time < 60.0 + 1.0 / frameRate)
  {
    var frac := time - Floor(time) as real;
    if Round(frameRate * frac) >= Round(frameRate) {
      LastFrame(frac, frameRate);
      CarryValue(time, frameRate);
    } else {
      NoCarryValue(time, frameRate);
    }
  }

  /**
   * Reading back a printed non-negative time lands within one frame of it,
   * or, after a carry on second 59, 60 seconds further on.
   */
  lemma RoundTrip(time: real, frameRate: real)
    requires time >= 0.0 && frameRate >= 0.5
    ensures var v := String2Seconds(Seconds2String(Some(time), frameRate).value, frameRate).value;
      || -1.0 / frameRate < v - time < 1.0 / frameRate
      || 60.0 < v - time < 60.0 + 1.0 / frameRate
  {
    FieldBounds(time, frameRate);
    FieldsValue(time, frameRate);
    FormatReadsBack(Fields(time, frameRate), frameRate);
    assert !ShowsNegative(time);
  }

  /**
   * The fields the carry evidently means to produce: the carried second is
   * added to the whole seconds before they are split, so the seconds wrap to
   * 0 and the carry reaches the minutes and the hours.
   */
  function CarriedFields(time: real, frameRate: real): Timecode
    requires time >= 0.0
  {
    var totalSeconds := Floor(time);
    var frames := Round(frameRate * (time - totalSeconds as real));
    var carry := frames >= Round(frameRate);
    var whole := if carry then totalSeconds + 1 else totalSeconds;
    Timecode(whole / 3600, (whole / 60) % 60, whole % 60, if carry then 0 else frames)
  }

  /** The carried fields are in range: minutes and seconds below 60, frames below `round(frameRate)`. */
  lemma CarriedFieldsBounds(time: real, frameRate: real)
    requires time >= 0.0 && frameRate >= 0.5
    ensures var tc := CarriedFields(time, frameRate);
      && tc.hours >= 0
      && 0 <= tc.minutes < 60
      && 0 <= tc.seconds < 60
      && 0 <= tc.frames < Round(frameRate)
  {
    FieldBounds(time, frameRate);
    var frac := time - Floor(time) as real;
    if Round(frameRate * frac) < Round(frameRate) {
      NoCarryFields(time, frameRate);
    }
  }

  /** A carried second lands exactly on the next whole second. */
  lemma CarriedNextSecond(time: real, frameRate: real)
    requires time >= 0.0 && frameRate >= 0.5
    requires Round(frameRate * (time - Floor(time) as real)) >= Round(frameRate)
    ensures TimecodeSeconds(CarriedFields(time, frameRate), frameRate) == (Floor(time) + 1) as real
  {
    var whole := Floor(time) + 1;
    assert CarriedFields(time, frameRate) == Timecode(whole / 3600, (whole / 60) % 60, whole % 60, 0);
    Decompose(whole);
  }

  /** The corrected fields stand for the time to within one frame. */
  lemma CarriedValue(time: real, frameRate: real)
    requires time >= 0.0 && frameRate >= 0.5
    ensures -1.0 / frameRate < TimecodeSeconds(CarriedFields(time, frameRate), frameRate) - time < 1.0 / frameRate
  {
    var frac := time - Floor(time) as real;
    if Round(frameRate * frac) >= Round(frameRate) {
      LastFrame(frac, frameRate);
      CarriedNextSecond(time, frameRate);
    } else {
      NoCarryFields(time, frameRate);
      assert CarriedFields(time, frameRate) == Fields(time, frameRate);
      NoCarryValue(time, frameRate);
    }
  }

  /** Without the 60-second overshoot, every non-negative time reads back within one frame. */
  lemma CarriedRoundTrip(time: real, frameRate: real)
    requires time >= 0.0 && frameRate >= 0.5
    ensures -1.0 / frameRate < String2Seconds(Format(CarriedFields(time, frameRate)), frameRate).value - time < 1.0 / frameRate
  {
    CarriedFieldsBounds(time, frameRate);
    FormatReadsBack(CarriedFields(time, frameRate), frameRate);
    CarriedValue(time, frameRate);
  }

  /** The corrected fields on second 59: 59.999 s at 30 fps is one minute flat. */
  lemma CarriedSecond59()
    ensures CarriedFields(59.999, 30.0) == Timecode(0, 1, 0, 0)
  {
    assert Floor(59.999) == 59 && Round(30.0 * (59.999 - 59.0)) == 30 && Round(30.0) == 30;
    assert 60 / 3600 == 0 && (60 / 60) % 60 == 1 && 60 % 60 == 0;
  }

  /** A table row: a non-negative time whose fields print as `text`. */
  lemma ShowsAs(t: real, frameRate: real, tc: Timecode, text: string)
    requires t >= 0.0 && Fields(t, frameRate) == tc
    requires IntToString(tc.hours) + ":" + Pad2(tc.minutes) + ":" + Pad2(tc.seconds) + ":" + Pad2(tc.frames) == text
    ensures Seconds2String(Some(t), frameRate) == Some(text)
  {
  }

  /** A carry on second 59: 59.999 s at 30 fps prints one minute and sixty seconds, which reads back as 120 s. */
  lemma CarryOnSecond59()
    ensures Seconds2String(Some(59.999), 30.0) == Some("0:01:60:00")
    ensures String2Seconds("0:01:60:00", 30.0) == Some(120.0)
  {
    var tc := Timecode(0, 1, 60, 0);
    assert Floor(59.999) == 59 && Round(30.0 * (59.999 - 59.0)) == 30 && Round(30.0) == 30;
    assert 59 / 3600 == 0 && (59 / 60) % 60 == 0 && 59 % 60 == 59;
    assert Fields(59.999, 30.0) == tc;
    assert 60 / 10 == 6 && 60 % 10 == 0;
    assert IntToString(0) == "0" && Pad2(1) == "01" && Pad2(60) == "60" && Pad2(0) == "00";
    assert "0" + ":" + "01" + ":" + "60" + ":" + "00" == "0:01:60:00";
    ShowsAs(59.999, 30.0, tc, "0:01:60:00");
    FormatReadsBack(tc, 30.0);
  }

  /** The minutes never carry into the hours: 3599.999 s prints sixty minutes. */
  lemma MinutesNeverCarry()
    ensures Seconds2String(Some(3599.999), 30.0) == Some("0:60:60:00")
  {
    var tc := Timecode(0, 60, 60, 0);
    assert Floor(3599.999) == 3599 && Round(30.0 * (3599.999 - 3599.0)) == 30 && Round(30.0) == 30;
    assert 3599 / 3600 == 0 && 3599 / 60 == 59 && 59 % 60 == 59 && 3599 % 60 == 59;
    assert Fields(3599.999, 30.0) == tc;
    assert 60 / 10 == 6 && 60 % 10 == 0;
    assert IntToString(0) == "0" && Pad2(60) == "60" && Pad2(0) == "00";
    assert "0" + ":" + "60" + ":" + "60" + ":" + "00" == "0:60:60:00";
    ShowsAs(3599.999, 30.0, tc, "0:60:60:00");
  }

  /** Fourteen seconds and one frame at 30 fps. */
  lemma FourteenSecondsOneFrame()
    ensures Seconds2String(Some(14.03), 30.0) == Some("0:00:14:01")
  {
    var tc := Timecode(0, 0, 14, 1);
    assert Floor(14.03) == 14 && Round(30.0 * (14.03 - 14.0)) == 1 && Round(30.0) == 30;
    assert 14 / 3600 == 0 && (14 / 60) % 60 == 0 && 14 % 60 == 14;
    assert Fields(14.03, 30.0) == tc;
    assert 14 / 10 == 1 && 14 % 10 == 4;
    assert IntToString(0) == "0" && Pad2(0) == "00" && Pad2(14) == "14" && Pad2(1) == "01";
    assert "0" + ":" + "00" + ":" + "14" + ":" + "01" == "0:00:14:01";
    ShowsAs(14.03, 30.0, tc, "0:00:14:01");
  }

  /** The same timecode from 14.016 s at 60 fps. */
  lemma FourteenSecondsOneFrameAt60()
    ensures Seconds2String(Some(14.016), 60.0) == Some("0:00:14:01")
  {
    var tc := Timecode(0, 0, 14, 1);
    assert Floor(14.016) == 14 && Round(60.0 * (14.016 - 14.0)) == 1 && Round(60.0) == 60;
    assert 14 / 3600 == 0 && (14 / 60) % 60 == 0 && 14 % 60 == 14;
    assert Fields(14.016, 60.0) == tc;
    assert 14 / 10 == 1 && 14 % 10 == 4;
    assert IntToString(0) == "0" && Pad2(0) == "00" && Pad2(14) == "14" && Pad2(1) == "01";
    assert "0" + ":" + "00" + ":" + "14" + ":" + "01" == "0:00:14:01";
    ShowsAs(14.016, 60.0, tc, "0:00:14:01");
  }

  /** A minute and a half: the half second is 15 frames at 30 fps. */
  lemma MinuteAndAHalf()
    ensures Seconds2String(Some(90.5), 30.0) == Some("0:01:30:15")
  {
    var tc := Timecode(0, 1, 30, 15);
    assert Floor(90.5) == 90 && Round(30.0 * (90.5 - 90.0)) == 15 && Round(30.0) == 30;
    assert 90 / 3600 == 0 && 90 / 60 == 1 && 1 % 60 == 1 && 90 % 60 == 30;
    assert Fields(90.5, 30.0) == tc;
    assert 30 / 10 == 3 && 30 % 10 == 0 && 15 / 10 == 1 && 15 % 10 == 5;
    assert IntToString(0) == "0" && Pad2(1) == "01" && Pad2(30) == "30" && Pad2(15) == "15";
    assert "0" + ":" + "01" + ":" + "30" + ":" + "15" == "0:01:30:15";
    ShowsAs(90.5, 30.0, tc, "0:01:30:15");
  }

  /** Thirty and a half seconds. */
  lemma ThirtyAndAHalf()
    ensures Seconds2String(Some(30.5), 30.0) == Some("0:00:30:15")
  {
    var tc := Timecode(0, 0, 30, 15);
    assert Floor(30.5) == 30 && Round(30.0 * (30.5 - 30.0)) == 15 && Round(30.0) == 30;
    assert 30 / 3600 == 0 && (30 / 60) % 60 == 0 && 30 % 60 == 30;
    assert Fields(30.5, 30.0) == tc;
    assert 30 / 10 == 3 && 30 % 10 == 0 && 15 / 10 == 1 && 15 % 10 == 5;
    assert IntToString(0) == "0" && Pad2(0) == "00" && Pad2(30) == "30" && Pad2(15) == "15";
    assert "0" + ":" + "00" + ":" + "30" + ":" + "15" == "0:00:30:15";
    ShowsAs(30.5, 30.0, tc, "0:00:30:15");
  }

  /** Half a second alone. */
  lemma HalfASecond()
    ensures Seconds2String(Some(0.5), 30.0) == Some("0:00:00:15")
  {
    var tc := Timecode(0, 0, 0, 15);
    assert Floor(0.5) == 0 && Round(30.0 * (0.5 - 0.0)) == 15 && Round(30.0) == 30;
    assert 0 / 3600 == 0 && (0 / 60) % 60 == 0 && 0 % 60 == 0;
    assert Fields(0.5, 30.0) == tc;
    assert 15 / 10 == 1 && 15 % 10 == 5;
    assert IntToString(0) == "0" && Pad2(0) == "00" && Pad2(15) == "15";
    assert "0" + ":" + "00" + ":" + "00" + ":" + "15" == "0:00:00:15";
    ShowsAs(0.5, 30.0, tc, "0:00:00:15");
  }

  /** An hour and a minute. */
  lemma HourAndAMinute()
    ensures Seconds2String(Some(3660.0), 30.0) == Some("1:01:00:00")
  {
    var tc := Timecode(1, 1, 0, 0);
    assert Floor(3660.0) == 3660 && Round(30.0 * (3660.0 - 3660.0)) == 0 && Round(30.0) == 30;
    assert 3660 / 3600 == 1 && 3660 / 60 == 61 && 61 % 60 == 1 && 3660 % 60 == 0;
    assert Fields(3660.0, 30.0) == tc;
    assert IntToString(1) == "1" && Pad2(1) == "01" && Pad2(0) == "00";
    assert "1" + ":" + "01" + ":" + "00" + ":" + "00" == "1:01:00:00";
    ShowsAs(3660.0, 30.0, tc, "1:01:00:00");
  }

  /** Whole seconds at the default frame rate. */
  lemma FiftySecondsAtDefaultRate()
    ensures Seconds2String(Some(50.0), DefaultFrameRate) == Some("0:00:50:00")
  {
    var tc := Timecode(0, 0, 50, 0);
    assert Floor(50.0) == 50 && Round(30.0 * (50.0 - 50.0)) == 0 && Round(30.0) == 30;
    assert 50 / 3600 == 0 && (50 / 60) % 60 == 0 && 50 % 60 == 50;
    assert Fields(50.0, 30.0) == tc;
    assert 50 / 10 == 5 && 50 % 10 == 0;
    assert IntToString(0) == "0" && Pad2(0) == "00" && Pad2(50) == "50";
    assert "0" + ":" + "00" + ":" + "50" + ":" + "00" == "0:00:50:00";
    ShowsAs(50.0, 30.0, tc, "0:00:50:00");
  }

  /** Four `:`-free fields joined by `:` read back field by field, hours first. */
  lemma ReadsFields(a: string, b: string, c: string, d: string, frameRate: real)
    requires ':' !in a && ':' !in b && ':' !in c && ':' !in d && frameRate != 0.0
    ensures ReadTimecode(a + [':'] + b + [':'] + c + [':'] + d) == Timecode(IntOrZero(a), IntOrZero(b), IntOrZero(c), IntOrZero(d))
    ensures String2Seconds(a + [':'] + b + [':'] + c + [':'] + d, frameRate) ==
      Some((IntOrZero(a) * 3600 + IntOrZero(b) * 60 + IntOrZero(c)) as real + IntOrZero(d) as real / frameRate)
  {
    var text := a + [':'] + b + [':'] + c + [':'] + d;
    var tc := Timecode(IntOrZero(a), IntOrZero(b), IntOrZero(c), IntOrZero(d));
    SplitFour(a, b, c, d, ':');
    assert ReadTimecode(text) == tc;
    ReadsTimecode(text, tc, frameRate);
  }

  /** A table row read back: a string that is the printed form of `tc`. */
  lemma ReadsAs(text: string, tc: Timecode, frameRate: real)
    requires tc.hours >= 0 && tc.minutes >= 0 && tc.seconds >= 0 && tc.frames >= 0 && frameRate != 0.0
    requires IntToString(tc.hours) + ":" + Pad2(tc.minutes) + ":" + Pad2(tc.seconds) + ":" + Pad2(tc.frames) == text
    ensures String2Seconds(text, frameRate) == Some(TimecodeSeconds(tc, frameRate))
  {
    FormatReadsBack(tc, frameRate);
  }

  /** The full-length rows of the string-to-seconds table. */
  lemma String2SecondsExamples()
    ensures String2Seconds("0:00:14:01", 30.0) == Some(14.0 + 1.0 / 30.0)
    ensures String2Seconds("0:00:14:01", 60.0) == Some(14.0 + 1.0 / 60.0)
  {
    assert Pad2(0) == "00" && Pad2(14) == "14" && Pad2(1) == "01";
    assert "0" + ":" + "00" + ":" + "14" + ":" + "01" == "0:00:14:01";
    ReadsAs("0:00:14:01", Timecode(0, 0, 14, 1), 30.0);
    ReadsAs("0:00:14:01", Timecode(0, 0, 14, 1), 60.0);
  }

  /** A minute and a half at 30 fps. */
  lemma String2SecondsMinuteAndHalf()
    ensures String2Seconds("0:01:30:15", 30.0) == Some(90.5)
  {
    assert Pad2(1) == "01" && Pad2(15) == "15" && Pad2(30) == "30";
    assert "0" + ":" + "01" + ":" + "30" + ":" + "15" == "0:01:30:15";
    ReadsAs("0:01:30:15", Timecode(0, 1, 30, 15), 30.0);
  }

  /** Fields printed without padding read back just as padded ones do. */
  lemma ReadsUnpadded(tc: Timecode, frameRate: real, text: string)
    requires tc.hours >= 0 && tc.minutes >= 0 && tc.seconds >= 0 && tc.frames >= 0 && frameRate != 0.0
    requires IntToString(tc.hours) + [':'] + IntToString(tc.minutes) + [':'] + IntToString(tc.seconds) + [':'] + IntToString(tc.frames) == text
    ensures String2Seconds(text, frameRate) == Some(TimecodeSeconds(tc, frameRate))
  {
    var h, m, sec, f := IntToString(tc.hours), IntToString(tc.minutes), IntToString(tc.seconds), IntToString(tc.frames);
    NatToStringValue(tc.hours);
    NatToStringValue(tc.minutes);
    NatToStringValue(tc.seconds);
    NatToStringValue(tc.frames);
    ParseNumeral(h);
    ParseNumeral(m);
    ParseNumeral(sec);
    ParseNumeral(f);
    DigitsExclude(h, ':');
    DigitsExclude(m, ':');
    DigitsExclude(sec, ':');
    DigitsExclude(f, ':');
    ReadsFields(h, m, sec, f, frameRate);
    assert ReadTimecode(text) == tc;
  }

  /** Unpadded fields read the same as padded ones. */
  lemma String2SecondsUnpadded()
    ensures String2Seconds("1:1:0:0", 30.0) == Some(3660.0)
  {
    assert IntToString(1) == "1" && IntToString(0) == "0";
    assert "1" + [':'] + "1" + [':'] + "0" + [':'] + "0" == "1:1:0:0";
    ReadsUnpadded(Timecode(1, 1, 0, 0), 30.0, "1:1:0:0");
  }

  /** Two padded fields are seconds and frames. */
  lemma ReadsSecondsAndFrames(seconds: nat, frames: nat, frameRate: real, text: string)
    requires frameRate != 0.0 && Pad2(seconds) + [':'] + Pad2(frames) == text
    ensures String2Seconds(text, frameRate) == Some(seconds as real + frames as real / frameRate)
  {
    ReadsTwoFields(seconds, frames, text);
    ReadsTimecode(text, Timecode(0, 0, seconds, frames), frameRate);
    ShortTimecodeSeconds(seconds, frames, frameRate);
  }

  lemma ShortTimecodeSeconds(seconds: int, frames: int, frameRate: real)
    requires frameRate != 0.0
    ensures TimecodeSeconds(Timecode(0, 0, seconds, frames), frameRate) == seconds as real + frames as real / frameRate
  {
  }

  lemma ReadsTwoFields(seconds: nat, frames: nat, text: string)
    requires Pad2(seconds) + [':'] + Pad2(frames) == text
    ensures ReadTimecode(text) == Timecode(0, 0, seconds, frames)
  {
    Pad2Value(seconds);
    Pad2Value(frames);
    DigitsExclude(Pad2(seconds), ':');
    DigitsExclude(Pad2(frames), ':');
    SplitTwo(Pad2(seconds), Pad2(frames), ':');
  }

  /** A short form: missing fields on the left count as zero. */
  lemma String2SecondsTwoFields()
    ensures String2Seconds("30:15", 30.0) == Some(30.5)
  {
    assert 30 / 10 == 3 && 30 % 10 == 0 && 15 / 10 == 1 && 15 % 10 == 5;
    assert Pad2(30) == "30" && Pad2(15) == "15";
    assert "30" + [':'] + "15" == "30:15";
    assert 30 as real + 15 as real / 30.0 == 30.5;
    ReadsSecondsAndFrames(30, 15, 30.0, "30:15");
  }

  /** A lone padded field is a frame count. */
  lemma ReadsFrames(frames: nat, frameRate: real, text: string)
    requires frameRate != 0.0 && Pad2(frames) == text
    ensures String2Seconds(text, frameRate) == Some(frames as real / frameRate)
  {
    Pad2Value(frames);
    DigitsExclude(text, ':');
    SplitPlain(text, ':');
    assert ReadTimecode(text) == Timecode(0, 0, 0, frames);
  }

  /** A lone field is a frame count. */
  lemma String2SecondsOneField()
    ensures String2Seconds("15", 30.0) == Some(0.5)
  {
    assert 15 / 10 == 1 && 15 % 10 == 5;
    assert Pad2(15) == "15";
    assert 15 as real / 30.0 == 0.5;
    ReadsFrames(15, 30.0, "15");
  }

  // ---------------------------------------------------------------------
  // validateTimeString and getStartTime

  /** The four slots `validateTimeString` fills: the last four chunks, right-aligned over `'00'`. */
  function PaddedChunks(chunks: seq<string>): (r: seq<string>)
    ensures |r| == 4
    ensures forall j | 0 <= j < 4 :: r[j] == if 4 - j <= |chunks| then chunks[|chunks| - 4 + j] else "00"
  {
    seq(4, j requires 0 <= j < 4 => if 4 - j <= |chunks| then chunks[|chunks| - 4 + j] else "00")
  }

  /** What `validateTimeString(time)` returns: the four slots joined when all are numerals. */
  function ValidatedTime(time: QueryValue): Option<string> {
    match time
    case Flag(_) => None
    case Str(s) =>
      var timeValues := PaddedChunks(Split(s, ':'));
      if forall j | 0 <= j < 4 :: IsNumeral(timeValues[j]) then Some(Join(timeValues, ':')) else None
  }

  /** The four slots once the last `filled` chunks have been copied in from the right. */
  predicate SlotsFilled(chunks: seq<string>, timeValues: seq<string>, filled: nat) {
    |timeValues| == 4 && filled <= |chunks| &&
    forall j | 0 <= j < 4 :: timeValues[j] == if 4 - j <= filled then chunks[|chunks| - 4 + j] else "00"
  }

  /** Copying one more chunk into its slot. */
  lemma FillSlot(chunks: seq<string>, timeValues: seq<string>, filled: nat)
    requires filled < 4 && filled < |chunks| && SlotsFilled(chunks, timeValues, filled)
    ensures SlotsFilled(chunks, timeValues[3 - filled := chunks[|chunks| - 1 - filled]], filled + 1)
  {
  }

  /** `validateTimeString(time)`: fills the four slots in one loop, checks them in a second. */
  method ValidateTimeString(time: QueryValue) returns (r: Option<string>)
    ensures r == ValidatedTime(time)
  {
    if !time.Str? {
      return None;
    }
    var chunks := Split(time.text, ':');
    var timeValues := ["00", "00", "00", "00"];
    var i := 1;
    while i <= 4 && i <= |chunks|
      invariant 1 <= i <= 5 && i <= |chunks| + 1
      invariant SlotsFilled(chunks, timeValues, i - 1)
    {
      FillSlot(chunks, timeValues, i - 1);
      timeValues := timeValues[4 - i := chunks[|chunks| - i]];
      i := i + 1;
    }
    assert timeValues == PaddedChunks(chunks);
    var k := 0;
    while k < |timeValues|
      invariant 0 <= k <= |timeValues|
      invariant forall j | 0 <= j < k :: IsNumeral(timeValues[j])
    {
      if !IsNumeral(timeValues[k]) {
        return None;
      }
      k := k + 1;
    }
    r := Some(Join(timeValues, ':'));
  }

  /** A validated time is exactly four `:`-separated numerals. */
  lemma ValidatedShape(time: QueryValue)
    requires ValidatedTime(time).Some?
    ensures var parts := Split(ValidatedTime(time).value, ':');
      |parts| == 4 && forall j | 0 <= j < 4 :: IsNumeral(parts[j])
  {
    var timeValues := PaddedChunks(Split(time.text, ':'));
    SplitJoin(timeValues, ':');
  }

  /** Validating a validated time changes nothing. */
  lemma ValidateIdempotent(time: QueryValue)
    requires ValidatedTime(time).Some?
    ensures ValidatedTime(Str(ValidatedTime(time).value)) == ValidatedTime(time)
  {
    var timeValues := PaddedChunks(Split(time.text, ':'));
    SplitJoin(timeValues, ':');
    assert PaddedChunks(timeValues) == timeValues;
  }

  /** Each of the last four chunks (fewer when there are fewer) is a numeral. */
  predicate LastFourNumerals(chunks: seq<string>) {
    forall j | 0 <= j < |chunks| && |chunks| - 4 <= j :: IsNumeral(chunks[j])
  }

  /** The four slots are all numerals exactly when the last four chunks are. */
  lemma PaddedNumerals(chunks: seq<string>)
    ensures (forall j | 0 <= j < 4 :: IsNumeral(PaddedChunks(chunks)[j])) <==> LastFourNumerals(chunks)
  {
    var timeValues := PaddedChunks(chunks);
    assert IsNumeral("00");
    if forall j | 0 <= j < 4 :: IsNumeral(timeValues[j]) {
      forall j | 0 <= j < |chunks| && |chunks| - 4 <= j
        ensures IsNumeral(chunks[j])
      {
        assert timeValues[j - |chunks| + 4] == chunks[j];
      }
    }
  }

  /** Only text can be a time, and it validates exactly when its last four chunks are numerals. */
  lemma ValidateAccepts(time: QueryValue)
    ensures time.Flag? ==> ValidatedTime(time) == None
    ensures time.Str? ==> (ValidatedTime(time).Some? <==> LastFourNumerals(Split(time.text, ':')))
  {
    if time.Str? {
      var timeValues := PaddedChunks(Split(time.text, ':'));
      PaddedNumerals(Split(time.text, ':'));
      assert ValidatedTime(time).Some? <==> forall j | 0 <= j < 4 :: IsNumeral(timeValues[j]);
    }
  }

  /** A string of exactly four numerals is its own validated form. */
  lemma ValidAsIs(s: string)
    requires |Split(s, ':')| == 4 && forall j | 0 <= j < 4 :: IsNumeral(Split(s, ':')[j])
    ensures ValidatedTime(Str(s)) == Some(s)
  {
    var chunks := Split(s, ':');
    assert PaddedChunks(chunks) == chunks;
    JoinSplit(s, ':');
  }

  /** Four numeral slots validate to the slots joined by `:`. */
  lemma ValidatesTo(s: string, a: string, b: string, c: string, d: string)
    requires PaddedChunks(Split(s, ':')) == [a, b, c, d]
    requires IsNumeral(a) && IsNumeral(b) && IsNumeral(c) && IsNumeral(d)
    ensures ValidatedTime(Str(s)) == Some(a + [':'] + b + [':'] + c + [':'] + d)
  {
    var slots := [a, b, c, d];
    assert forall j | 0 <= j < 4 :: IsNumeral(slots[j]);
    JoinFour(a, b, c, d, ':');
  }

  /** A short form is padded on the left. */
  lemma ValidateShortForm(t: string)
    requires t == "0:01"
    ensures ValidatedTime(Str(t)) == Some("00" + [':'] + "00" + [':'] + "0" + [':'] + "01")
  {
    assert t == "0" + [':'] + "01";
    SplitTwo("0", "01", ':');
    assert PaddedChunks(["0", "01"]) == ["00", "00", "0", "01"];
    assert IsNumeral("00") && IsNumeral("0") && IsNumeral("01");
    ValidatesTo(t, "00", "00", "0", "01");
  }

  /** A bare number becomes the frames field. */
  lemma ValidateBareNumber(t: string)
    requires t == "1000"
    ensures ValidatedTime(Str(t)) == Some("00" + [':'] + "00" + [':'] + "00" + [':'] + t)
  {
    ThousandValue();
    DigitsExclude(t, ':');
    SplitPlain(t, ':');
    assert PaddedChunks([t]) == ["00", "00", "00", t];
    assert IsNumeral("00");
    ValidatesTo(t, "00", "00", "00", t);
  }

  /** A unit suffix is not a numeral. */
  lemma ValidateRejectsSuffix()
    ensures ValidatedTime(Str("1.5s")) == None
  {
    SplitPlain("1.5s", ':');
    assert !IsNumeral("1.5s") by { assert !IsDigit("1.5s"[1]); }
    assert PaddedChunks(["1.5s"])[3] == "1.5s";
  }

  /** An empty chunk is not a numeral. */
  lemma ValidateRejectsEmptyChunk()
    ensures ValidatedTime(Str("0::01")) == None
  {
    assert "0::01" == "0" + [':'] + "" + [':'] + "01";
    SplitThree("0", "", "01", ':');
    assert PaddedChunks(["0", "", "01"])[2] == "";
  }

  /**
   * `getStartTime(params, frameRate)` in milliseconds: a `t` property wins
   * over `cid`; the `cid` branch has no comment store and always yields 0.
   */
  function GetStartTime(params: QueryMap, frameRate: real): (r: Option<real>)
    ensures r.None? ==> frameRate == 0.0
  {
    match Lookup(params, "t")
    case Some(t) =>
      (match ValidatedTime(t)
       case Some(time) =>
         (match String2Seconds(time, frameRate)
          case Some(seconds) => Some(seconds * 1000.0)
          case None => None)
       case None => Some(0.0))
    case None => Some(0.0)
  }

  /** A validated time reads back as exactly its four numeral fields. */
  lemma ValidatedSeconds(time: QueryValue, frameRate: real)
    requires ValidatedTime(time).Some? && frameRate != 0.0
    ensures var parts := Split(ValidatedTime(time).value, ':');
      && |parts| == 4
      && (forall j | 0 <= j < 4 :: IsNumeral(parts[j]))
      && String2Seconds(ValidatedTime(time).value, frameRate).value ==
           (NumeralValue(parts[0]) * 3600 + NumeralValue(parts[1]) * 60 + NumeralValue(parts[2])) as real
           + NumeralValue(parts[3]) as real / frameRate
  {
    ValidatedShape(time);
    var text := ValidatedTime(time).value;
    var parts := Split(text, ':');
    ParseNumeral(parts[0]);
    ParseNumeral(parts[1]);
    ParseNumeral(parts[2]);
    ParseNumeral(parts[3]);
    var tc := Timecode(NumeralValue(parts[0]), NumeralValue(parts[1]), NumeralValue(parts[2]), NumeralValue(parts[3]));
    assert ReadTimecode(text) == tc;
    ReadsTimecode(text, tc, frameRate);
    assert TimecodeSeconds(tc, frameRate) ==
      (NumeralValue(parts[0]) * 3600 + NumeralValue(parts[1]) * 60 + NumeralValue(parts[2])) as real
      + NumeralValue(parts[3]) as real / frameRate;
  }

  /**
   * The start time is 0 unless a `t` property validates; then it is that
   * time in milliseconds, or not a finite number at a zero frame rate.
   */
  lemma StartTimeCases(params: QueryMap, frameRate: real)
    ensures Lookup(params, "t").None? ==> GetStartTime(params, frameRate) == Some(0.0)
    ensures Lookup(params, "t").Some? && ValidatedTime(Lookup(params, "t").value).None? ==>
      GetStartTime(params, frameRate) == Some(0.0)
    ensures Lookup(params, "t").Some? && ValidatedTime(Lookup(params, "t").value).Some? && frameRate == 0.0 ==>
      GetStartTime(params, frameRate) == None
    ensures Lookup(params, "t").Some? && ValidatedTime(Lookup(params, "t").value).Some? && frameRate != 0.0 ==>
      var parts := Split(ValidatedTime(Lookup(params, "t").value).value, ':');
      && |parts| == 4
      && (forall j | 0 <= j < 4 :: IsNumeral(parts[j]))
      && GetStartTime(params, frameRate).value ==
        1000.0 * ((NumeralValue(parts[0]) * 3600 + NumeralValue(parts[1]) * 60 + NumeralValue(parts[2])) as real
                  + NumeralValue(parts[3]) as real / frameRate)
  {
    var t := Lookup(params, "t");
    if t.Some? && ValidatedTime(t.value).Some? && frameRate != 0.0 {
      var time := ValidatedTime(t.value).value;
      ValidatedSeconds(t.value, frameRate);
      StartTimeOfValid(params, time, frameRate);
      var x := String2Seconds(time, frameRate).value;
      assert x * 1000.0 == 1000.0 * x;
    }
  }

  /** A `t` that validates to `time` starts the player at `time` read back, in milliseconds. */
  lemma StartTimeOfValid(params: QueryMap, time: string, frameRate: real)
    requires Lookup(params, "t").Some? && ValidatedTime(Lookup(params, "t").value) == Some(time)
    requires frameRate != 0.0
    ensures GetStartTime(params, frameRate).value == String2Seconds(time, frameRate).value * 1000.0
  {
  }

  /** Four numeral fields joined by `:` validate as they are. */
  lemma FourNumeralsValid(a: string, b: string, c: string, d: string)
    requires IsNumeral(a) && IsNumeral(b) && IsNumeral(c) && IsNumeral(d)
    ensures var t := a + ":" + b + ":" + c + ":" + d; ValidatedTime(Str(t)) == Some(t)
  {
    DigitsExclude(a, ':');
    DigitsExclude(b, ':');
    DigitsExclude(c, ':');
    DigitsExclude(d, ':');
    SplitFour(a, b, c, d, ':');
    var slots := [a, b, c, d];
    assert forall j | 0 <= j < 4 :: IsNumeral(slots[j]);
    ValidAsIs(a + ":" + b + ":" + c + ":" + d);
  }

  /** A lone `t` of four numeral fields starts the player at that timecode, read back as it stands. */
  lemma StartTimeFields(a: string, b: string, c: string, d: string, frameRate: real)
    requires IsNumeral(a) && IsNumeral(b) && IsNumeral(c) && IsNumeral(d) && frameRate != 0.0
    ensures var t := a + ":" + b + ":" + c + ":" + d;
      GetStartTime([Entry("t", Str(t))], frameRate) == Some(String2Seconds(t, frameRate).value * 1000.0)
  {
    var t := a + ":" + b + ":" + c + ":" + d;
    assert Lookup([Entry("t", Str(t))], "t") == Some(Str(t));
    FourNumeralsValid(a, b, c, d);
    StartTimeOfValid([Entry("t", Str(t))], t, frameRate);
  }

  /** A timecode as `seconds2String` prints it, passed as `t`, starts the player at exactly that timecode. */
  lemma StartTimeOfTimecode(tc: Timecode, frameRate: real, text: string)
    requires tc.hours >= 0 && tc.minutes >= 0 && tc.seconds >= 0 && tc.frames >= 0 && frameRate != 0.0
    requires IntToString(tc.hours) + ":" + Pad2(tc.minutes) + ":" + Pad2(tc.seconds) + ":" + Pad2(tc.frames) == text
    ensures GetStartTime([Entry("t", Str(text))], frameRate).value == TimecodeSeconds(tc, frameRate) * 1000.0
  {
    Pad2Value(tc.minutes);
    Pad2Value(tc.seconds);
    Pad2Value(tc.frames);
    StartTimeFields(IntToString(tc.hours), Pad2(tc.minutes), Pad2(tc.seconds), Pad2(tc.frames), frameRate);
    FormatReadsBack(tc, frameRate);
  }

  /** A start time one frame past 14 s at 29.97 fps. */
  lemma StartTimeOneFrame()
    ensures GetStartTime([Entry("t", Str("0:00:14:01"))], 29.97).value == (14.0 + 1.0 / 29.97) * 1000.0
  {
    var tc := Timecode(0, 0, 14, 1);
    assert 14 / 10 == 1 && 14 % 10 == 4;
    assert IntToString(0) == "0" && Pad2(0) == "00" && Pad2(14) == "14" && Pad2(1) == "01";
    assert "0" + ":" + "00" + ":" + "14" + ":" + "01" == "0:00:14:01";
    StartTimeOfTimecode(tc, 29.97, "0:00:14:01");
  }

  /** A whole-second start time does not depend on the frame rate. */
  lemma StartTimeWholeSeconds()
    ensures GetStartTime([Entry("t", Str("0:00:14:00"))], 29.97).value == 14000.0
  {
    var tc := Timecode(0, 0, 14, 0);
    assert 14 / 10 == 1 && 14 % 10 == 4;
    assert IntToString(0) == "0" && Pad2(0) == "00" && Pad2(14) == "14";
    assert "0" + ":" + "00" + ":" + "14" + ":" + "00" == "0:00:14:00";
    StartTimeOfTimecode(tc, 29.97, "0:00:14:00");
  }

  /** A minute and one frame at 60 fps. */
  lemma StartTimeMinuteAndOneFrame()
    ensures GetStartTime([Entry("t", Str("0:01:00:01"))], 60.0).value == (60.0 + 1.0 / 60.0) * 1000.0
  {
    var tc := Timecode(0, 1, 0, 1);
    assert IntToString(0) == "0" && Pad2(0) == "00" && Pad2(1) == "01";
    assert "0" + ":" + "01" + ":" + "00" + ":" + "01" == "0:01:00:01";
    StartTimeOfTimecode(tc, 60.0, "0:01:00:01");
  }

  lemma ThousandValue()
    ensures IsNumeral("1000") && NumeralValue("1000") == 1000
  {
    assert "1000"[..3] == "100" && "100"[..2] == "10" && "10"[..1] == "1";
  }

  /** `1000` is padded on the left to `00:00:00:1000` and read from there. */
  lemma BareNumberPadded(t: string, frameRate: real)
    requires t == "1000" && frameRate != 0.0
    ensures GetStartTime([Entry("t", Str(t))], frameRate).Some?
    ensures GetStartTime([Entry("t", Str(t))], frameRate).value ==
      String2Seconds("00" + [':'] + "00" + [':'] + "00" + [':'] + t, frameRate).value * 1000.0
  {
    assert Lookup([Entry("t", Str(t))], "t") == Some(Str(t));
    ValidateBareNumber(t);
    StartTimeOfValid([Entry("t", Str(t))], "00" + [':'] + "00" + [':'] + "00" + [':'] + t, frameRate);
  }

  /** `00:00:00:1000` is a thousand frames. */
  lemma ThousandFrames(t: string, frameRate: real)
    requires t == "1000" && frameRate != 0.0
    ensures String2Seconds("00" + [':'] + "00" + [':'] + "00" + [':'] + t, frameRate) == Some(1000.0 / frameRate)
  {
    ThousandValue();
    ParseNumeral(t);
    Pad2Value(0);
    assert Pad2(0) == "00";
    DigitsExclude("00", ':');
    DigitsExclude(t, ':');
    ReadsFields("00", "00", "00", t, frameRate);
    assert IntOrZero("00") == 0 && IntOrZero(t) == 1000;
    ReadsTimecode("00" + [':'] + "00" + [':'] + "00" + [':'] + t, Timecode(0, 0, 0, 1000), frameRate);
    ShortTimecodeSeconds(0, 1000, frameRate);
  }

  /** A bare number is read as a frame count, not as milliseconds. */
  lemma StartTimeBareNumber(t: string)
    requires t == "1000"
    ensures GetStartTime([Entry("t", Str(t))], DefaultFrameRate) == Some(1000.0 / 30.0 * 1000.0)
  {
    BareNumberPadded(t, 30.0);
    ThousandFrames(t, 30.0);
  }

  /** A suffixed duration is rejected, and so gives 0. */
  lemma StartTimeSuffixed()
    ensures GetStartTime([Entry("t", Str("1.5s"))], 60.0) == Some(0.0)
  {
    ValidateRejectsSuffix();
  }

  /** A `cid` alone gives 0. */
  lemma StartTimeCidOnly()
    ensures GetStartTime([Entry("cid", Str("7"))], 30.0) == Some(0.0)
  {
    assert Lookup([Entry("cid", Str("7"))], "t") == None;
  }

  // ---------------------------------------------------------------------
  // basicTime

  /** `basicTime(time)`: `[H:]M:SS` of `floor(time / 1000)` seconds. */
  function BasicTime(time: real): string {
    ClockText(Floor(time / 1000.0))
  }

  /** The `[H:]M:SS` text `basicTime` builds from a whole number of seconds. */
  function ClockText(totalSeconds: int): string {
    ClockFields(totalSeconds / 3600, JsRem(totalSeconds / 60, 60), JsRem(totalSeconds, 60))
  }

  /** The text for given hours, minutes and seconds: hours only when positive, minutes unpadded. */
  function ClockFields(hours: int, minutes: int, seconds: int): string {
    var hoursText := if hours > 0 then IntToString(hours) + ":" else "";
    var minutesText := if minutes == 0 then (if hoursText == "" then "0" else "00") else IntToString(minutes);
    hoursText + minutesText + ":" + Pad2(seconds)
  }

  /** Reads `[H:]M:SS` back as whole seconds, base 60. */
  function ReadBasicTime(parts: seq<string>): int {
    if |parts| == 3 then IntOrZero(parts[0]) * 3600 + IntOrZero(parts[1]) * 60 + IntOrZero(parts[2])
    else if |parts| == 2 then IntOrZero(parts[0]) * 60 + IntOrZero(parts[1])
    else 0
  }

  /** The minutes text of `basicTime`: `'0'`/`'00'` for zero, the unpadded number otherwise. */
  function MinutesText(minutes: int, withHours: bool): string {
    if minutes == 0 then (if withHours then "00" else "0") else IntToString(minutes)
  }

  lemma MinutesField(minutes: int, withHours: bool)
    requires 0 <= minutes < 60
    ensures IsNumeral(MinutesText(minutes, withHours))
    ensures IntOrZero(MinutesText(minutes, withHours)) == minutes
  {
    if minutes == 0 {
      assert "00"[..1] == "0";
      if withHours {
        ParseNumeral("00");
      } else {
        ParseNumeral("0");
      }
    } else {
      NatToStringValue(minutes);
      ParseNumeral(IntToString(minutes));
    }
  }

  lemma SecondsField(seconds: int)
    requires 0 <= seconds < 60
    ensures IsNumeral(Pad2(seconds)) && |Pad2(seconds)| == 2
    ensures IntOrZero(Pad2(seconds)) == seconds
  {
    Pad2Value(seconds);
    if seconds < 10 {
      assert |IntToString(seconds)| == 1;
    } else {
      var high := NatToString(seconds / 10);
      assert |high| == 1;
      assert IntToString(seconds) == high + [DigitChar(seconds % 10)];
    }
  }

  lemma HoursField(hours: int)
    requires hours > 0
    ensures IsNumeral(IntToString(hours))
    ensures IntOrZero(IntToString(hours)) == hours
  {
    NatToStringValue(hours);
    ParseNumeral(IntToString(hours));
  }

  /** The `:`-separated fields `basicTime` prints for given hours, minutes and seconds. */
  function BasicTimeParts(hours: int, minutes: int, seconds: int): seq<string>
    requires hours >= 0
  {
    if hours > 0 then [IntToString(hours), MinutesText(minutes, true), Pad2(seconds)]
    else [MinutesText(minutes, false), Pad2(seconds)]
  }

  /** The text splits into those fields. */
  lemma ClockFieldsSplit(hours: int, minutes: int, seconds: int)
    requires hours >= 0 && 0 <= minutes < 60 && 0 <= seconds < 60
    ensures Split(ClockFields(hours, minutes, seconds), ':') == BasicTimeParts(hours, minutes, seconds)
  {
    var mText := MinutesText(minutes, hours > 0);
    var sText := Pad2(seconds);
    assert ':' !in mText by {
      MinutesField(minutes, hours > 0);
      DigitsExclude(mText, ':');
    }
    assert ':' !in sText by {
      SecondsField(seconds);
      DigitsExclude(sText, ':');
    }
    if hours > 0 {
      var hText := IntToString(hours);
      assert ':' !in hText by {
        HoursField(hours);
        DigitsExclude(hText, ':');
      }
      assert ClockFields(hours, minutes, seconds) == hText + [':'] + mText + [':'] + sText;
      SplitThree(hText, mText, sText, ':');
    } else {
      var empty: string := "";
      assert ClockFields(hours, minutes, seconds) == empty + mText + [':'] + sText;
      assert empty + mText == mText;
      SplitTwo(mText, sText, ':');
    }
  }

  /** An hours field exactly from one hour on, and a two-digit seconds field last. */
  lemma BasicTimePartsShape(hours: int, minutes: int, seconds: int)
    requires hours >= 0 && 0 <= minutes < 60 && 0 <= seconds < 60
    ensures var parts := BasicTimeParts(hours, minutes, seconds);
      && (|parts| == 3 <==> hours > 0)
      && (|parts| == 2 <==> hours == 0)
      && |parts[|parts| - 1]| == 2
  {
    SecondsField(seconds);
  }

  /** Every field is a numeral. */
  lemma BasicTimePartsNumerals(hours: int, minutes: int, seconds: int)
    requires hours >= 0 && 0 <= minutes < 60 && 0 <= seconds < 60
    ensures var parts := BasicTimeParts(hours, minutes, seconds);
      forall j | 0 <= j < |parts| :: IsNumeral(parts[j])
  {
    MinutesField(minutes, hours > 0);
    SecondsField(seconds);
    if hours > 0 {
      HoursField(hours);
      NumeralTriple(IntToString(hours), MinutesText(minutes, true), Pad2(seconds));
    } else {
      NumeralPair(MinutesText(minutes, false), Pad2(seconds));
    }
  }

  lemma NumeralPair(a: string, b: string)
    requires IsNumeral(a) && IsNumeral(b)
    ensures forall j | 0 <= j < 2 :: IsNumeral([a, b][j])
  {
  }

  lemma NumeralTriple(a: string, b: string, c: string)
    requires IsNumeral(a) && IsNumeral(b) && IsNumeral(c)
    ensures forall j | 0 <= j < 3 :: IsNumeral([a, b, c][j])
  {
  }

  /** Read base 60, the fields give back the seconds. */
  lemma BasicTimePartsValue(hours: int, minutes: int, seconds: int)
    requires hours >= 0 && 0 <= minutes < 60 && 0 <= seconds < 60
    ensures ReadBasicTime(BasicTimeParts(hours, minutes, seconds)) == hours * 3600 + minutes * 60 + seconds
  {
    MinutesField(minutes, hours > 0);
    SecondsField(seconds);
    if hours > 0 {
      HoursField(hours);
    }
  }

  /**
   * For a non-negative time the text has an hours field exactly from one hour
   * on, every field is a numeral, the seconds take exactly two digits, and
   * reading the fields back base 60 gives `floor(time / 1000)`.
   */
  lemma BasicTimeReadsBack(time: real)
    requires time >= 0.0
    ensures var parts := Split(BasicTime(time), ':');
      && (|parts| == 3 <==> Floor(time / 1000.0) >= 3600)
      && (|parts| == 2 <==> Floor(time / 1000.0) < 3600)
      && (forall j | 0 <= j < |parts| :: IsNumeral(parts[j]))
      && |parts[|parts| - 1]| == 2
      && ReadBasicTime(parts) == Floor(time / 1000.0)
  {
    var total := Floor(time / 1000.0);
    Decompose(total);
    ClockFieldsSplit(total / 3600, (total / 60) % 60, total % 60);
    var hours, minutes, seconds := total / 3600, (total / 60) % 60, total % 60;
    BasicTimePartsShape(hours, minutes, seconds);
    BasicTimePartsNumerals(hours, minutes, seconds);
    BasicTimePartsValue(hours, minutes, seconds);
  }

  /** Zero prints as `0:00`. */
  lemma BasicTimeZero()
    ensures BasicTime(0.0) == "0:00"
  {
    assert ClockText(0) == ClockFields(0, 0, 0);
    assert ClockFields(0, 0, 0) == "" + "0" + ":" + "00";
  }

  /** Under an hour the minutes are not padded: 65.999 s prints as `1:05`. */
  lemma BasicTimeUnderAnHour()
    ensures BasicTime(65999.0) == "1:05"
  {
    assert Floor(65999.0 / 1000.0) == 65;
    assert 65 / 3600 == 0 && 65 / 60 == 1 && JsRem(1, 60) == 1 && JsRem(65, 60) == 5;
    assert ClockText(65) == ClockFields(0, 1, 5);
    assert Pad2(5) == "05";
    assert ClockFields(0, 1, 5) == "" + "1" + ":" + "05";
  }

  /** From an hour on there is an hours field, and zero minutes print as `00`. */
  lemma BasicTimeOneHour()
    ensures BasicTime(3600000.0) == "1:00:00"
  {
    assert Floor(3600000.0 / 1000.0) == 3600;
    assert 3600 / 3600 == 1 && 3600 / 60 == 60 && JsRem(60, 60) == 0 && JsRem(3600, 60) == 0;
    assert ClockText(3600) == ClockFields(1, 0, 0);
    assert ClockFields(1, 0, 0) == "1" + ":" + "00" + ":" + "00";
  }

  /** Non-zero minutes stay unpadded even after an hours field. */
  lemma BasicTimeUnpaddedMinutes()
    ensures BasicTime(3907000.0) == "1:5:07"
  {
    assert Floor(3907000.0 / 1000.0) == 3907;
    assert 3907 / 3600 == 1 && 3907 / 60 == 65 && JsRem(65, 60) == 5 && JsRem(3907, 60) == 7;
    assert ClockText(3907) == ClockFields(1, 5, 7);
    assert Pad2(7) == "07";
    assert ClockFields(1, 5, 7) == "1" + ":" + "5" + ":" + "07";
  }
}
