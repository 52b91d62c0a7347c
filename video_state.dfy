/**
 * What the player reads off the HTML media element: the `isPlaying` signal
 * and the buffered time ranges turned into percent bars keyed by their raw
 * endpoints (src/lib/getVideoState.js).
 */
module VideoState {
  import opened Wrappers
  import opened Numbers
  import opened Text

  /** One entry of `video.buffered`: `start(i)` and `end(i)` in seconds. */
  datatype TimeRange = TimeRange(start: real, end: real)

  /**
   * A snapshot of the media element fields the stores and the actions read.
   * `currentSrc` and `error` are `None` where the element reports nothing.
   */
  datatype MediaElement = MediaElement(
    currentTime: real,
    duration: real,
    paused: bool,
    ended: bool,
    readyState: int,
    muted: bool,
    autoplay: bool,
    loop: bool,
    currentSrc: Option<string>,
    error: Option<string>,
    networkState: int,
    volume: real,
    playbackRate: real,
    videoWidth: real,
    videoHeight: real,
    buffered: seq<TimeRange>)

  /** `getIsPlaying`: time has moved, nothing stops playback, and enough data is loaded. */
  predicate IsPlaying(video: MediaElement) {
    video.currentTime > 0.0 && !video.paused && !video.ended && video.readyState > 2
  }

  /** The record key: the unrounded endpoints the key string is printed from. */
  datatype SectionKey = SectionKey(rawStart: real, rawEnd: real)

  /**
   * `BufferRecord`: a buffered bar in percent of the duration. A percent is
   * `None` where JavaScript would compute `NaN` or an infinity (zero duration).
   */
  datatype BufferRecord = BufferRecord(key: SectionKey, start: Option<real>, end: Option<real>)

  predicate IsIntegral(x: real) {
    x == x.Floor as real
  }

  /**
   * The key string `"<start>-<end>"`, for integral endpoints, where JavaScript
   * prints a number exactly as its integer numeral.
   */
  function KeyText(key: SectionKey): (t: Option<string>)
    ensures t.Some? <==> IsIntegral(key.rawStart) && IsIntegral(key.rawEnd)
  {
    if IsIntegral(key.rawStart) && IsIntegral(key.rawEnd) then
      Some(IntToString(key.rawStart.Floor) + ['-'] + IntToString(key.rawEnd.Floor))
    else None
  }

  /** A key of non-negative integral endpoints splits back into their numerals. */
  lemma KeyTextReadsBack(key: SectionKey)
    requires IsIntegral(key.rawStart) && IsIntegral(key.rawEnd)
    requires key.rawStart >= 0.0 && key.rawEnd >= 0.0
    ensures var parts := Split(KeyText(key).value, '-');
      |parts| == 2 && IsNumeral(parts[0]) && IsNumeral(parts[1])
      && NumeralValue(parts[0]) as real == key.rawStart
      && NumeralValue(parts[1]) as real == key.rawEnd
  {
    var a := NatToString(key.rawStart.Floor);
    var b := NatToString(key.rawEnd.Floor);
    DigitsExclude(a, '-');
    DigitsExclude(b, '-');
    SplitTwo(a, b, '-');
    NatToStringValue(key.rawStart.Floor);
    NatToStringValue(key.rawEnd.Floor);
  }

  /** A bar's start: the exact percent rounded down to a hundredth. */
  function StartPercent(position: real, duration: real): (p: Option<real>)
    ensures p.Some? <==> duration != 0.0
    ensures p.Some? ==> position / duration * 100.0 - 0.01 < p.value <= position / duration * 100.0
    ensures p.Some? ==> IsIntegral(p.value * 100.0)
  {
    if duration == 0.0 then None
    else
      var exact := position / duration;
      var k := Floor(exact * 10000.0);
      HundredthsBand(exact, k);
      Some(k as real / 100.0)
  }

  /** A bar's end: the exact percent rounded up to a hundredth. */
  function EndPercent(position: real, duration: real): (p: Option<real>)
    ensures p.Some? <==> duration != 0.0
    ensures p.Some? ==> position / duration * 100.0 <= p.value < position / duration * 100.0 + 0.01
    ensures p.Some? ==> IsIntegral(p.value * 100.0)
  {
    if duration == 0.0 then None
    else
      var exact := position / duration;
      var k := Ceil(exact * 10000.0);
      HundredthsBand(exact, k);
      Some(k as real / 100.0)
  }

  /** A whole number of ten-thousandths within one of `exact * 10000`, read as a percent. */
  lemma HundredthsBand(exact: real, k: int)
    requires exact * 10000.0 - 1.0 < k as real < exact * 10000.0 + 1.0
    ensures exact * 100.0 - 0.01 < k as real / 100.0 < exact * 100.0 + 0.01
    ensures IsIntegral(k as real / 100.0 * 100.0)
  {
    assert k as real / 100.0 * 100.0 == k as real;
  }

  /** The record for one buffered range. */
  function Section(range: TimeRange, duration: real): (r: BufferRecord)
    ensures r.key == SectionKey(range.start, range.end)
    ensures r.start.Some? <==> duration != 0.0
    ensures r.end.Some? <==> duration != 0.0
    ensures r.start.Some? ==> range.start / duration * 100.0 - 0.01 < r.start.value <= range.start / duration * 100.0
    ensures r.end.Some? ==> range.end / duration * 100.0 <= r.end.value < range.end / duration * 100.0 + 0.01
    ensures r.start.Some? ==> IsIntegral(r.start.value * 100.0)
    ensures r.end.Some? ==> IsIntegral(r.end.value * 100.0)
  {
    BufferRecord(SectionKey(range.start, range.end),
                 StartPercent(range.start, duration), EndPercent(range.end, duration))
  }

  /** The records of `getBufferedSections`, one per range, pushed in range order. */
  function BufferedSections(ranges: seq<TimeRange>, duration: real): (sections: seq<BufferRecord>)
    ensures |sections| == |ranges|
    ensures forall i | 0 <= i < |ranges| :: sections[i] == Section(ranges[i], duration)
    decreases |ranges|
  {
    if ranges == [] then []
    else
      BufferedSections(ranges[..|ranges| - 1], duration) + [Section(ranges[|ranges| - 1], duration)]
  }

  /** `getBufferedSections`: the loop over `video.buffered`. */
  method GetBufferedSections(video: MediaElement) returns (sections: seq<BufferRecord>)
    ensures sections == BufferedSections(video.buffered, video.duration)
  {
    sections := [];
    var i := 0;
    while i < |video.buffered|
      invariant 0 <= i <= |video.buffered|
      invariant sections == BufferedSections(video.buffered[..i], video.duration)
    {
      assert video.buffered[..i + 1][..i] == video.buffered[..i];
      sections := sections + [Section(video.buffered[i], video.duration)];
      i := i + 1;
    }
    assert video.buffered[..i] == video.buffered;
  }

  /** Dividing by a positive duration keeps the order of positions. */
  lemma DivideOrdered(a: real, b: real, d: real)
    requires d > 0.0 && a <= b
    ensures a / d * 100.0 <= b / d * 100.0
  {
    var gap := (b - a) / d;
    assert gap >= 0.0;
    assert b / d - a / d == gap;
  }

  /** With a positive duration a well-formed range never gives a bar that ends before it starts. */
  lemma SectionOrdered(range: TimeRange, duration: real)
    requires duration > 0.0 && range.start <= range.end
    ensures Section(range, duration).start.value <= Section(range, duration).end.value
  {
    DivideOrdered(range.start, range.end, duration);
  }

  /** The bar of range [0, 1] of a 10-second video runs from 0 to 10 with key "0-1". */
  lemma OneSecondOfTen()
    ensures Section(TimeRange(0.0, 1.0), 10.0) == BufferRecord(SectionKey(0.0, 1.0), Some(0.0), Some(10.0))
    ensures KeyText(SectionKey(0.0, 1.0)) == Some("0-1")
  {
    assert 0.0 / 10.0 * 10000.0 == 0.0;
    assert 1.0 / 10.0 * 10000.0 == 1000.0;
    assert Floor(0.0) == 0;
    assert Ceil(1000.0) == 1000;
    assert 1000 as real / 100.0 == 10.0;
    assert (0.0).Floor == 0 && (1.0).Floor == 1;
    assert NatToString(0) == "0" && NatToString(1) == "1";
    assert IntToString(0) == "0" && IntToString(1) == "1";
    assert "0" + ['-'] + "1" == "0-1";
  }

  /** The rows of the `getIsPlaying` table: only a moving, unpaused, unended, loaded video plays. */
  lemma IsPlayingRows(v: MediaElement)
    ensures !IsPlaying(v.(currentTime := 0.0, paused := false, ended := false, readyState := 4))
    ensures !IsPlaying(v.(currentTime := 1.0, paused := true, ended := false, readyState := 4))
    ensures !IsPlaying(v.(currentTime := 1.0, paused := false, ended := true, readyState := 4))
    ensures !IsPlaying(v.(currentTime := 1.0, paused := false, ended := true, readyState := 2))
    ensures IsPlaying(v.(currentTime := 1.0, paused := false, ended := false, readyState := 4))
  {
  }
}
