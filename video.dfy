/**
 * The video component (src/components/video/Video.js): it carries out the
 * emitter's commands on its `<video>` element, and maps a click on the
 * letterboxed picture to a pixel of the native video frame.
 */
module Video {
  import opened Wrappers
  import opened Numbers
  import opened VideoState
  import opened Layout

  /**
   * The fitted picture inside the element: its size and the bars left
   * over on each side (`widthPadding`, `heightPadding`).
   */
  datatype Frame = Frame(width: real, height: real, widthPadding: int, heightPadding: int)

  /** A point of the native video frame. */
  datatype Point = Point(x: real, y: real)

  /**
   * The picture `calculateClickPosition` fits into an element of the given
   * size: the full height when the element is wider than the video, the
   * full width otherwise, the other side floored to whole pixels.
   */
  function Fit(videoWidth: real, videoHeight: real, offsetWidth: real, offsetHeight: real): (f: Frame)
    requires videoWidth > 0.0 && videoHeight > 0.0 && offsetWidth > 0.0 && offsetHeight > 0.0
    ensures 0.0 <= f.width <= offsetWidth && 0.0 <= f.height <= offsetHeight
    ensures f.width == offsetWidth || f.height == offsetHeight
    ensures offsetWidth / offsetHeight > videoWidth / videoHeight ==>
      f.height == offsetHeight && f.width == Floor(offsetHeight * videoWidth / videoHeight) as real
    ensures !(offsetWidth / offsetHeight > videoWidth / videoHeight) ==>
      f.width == offsetWidth && f.height == Floor(offsetWidth * videoHeight / videoWidth) as real
    ensures f.height == offsetHeight ==>
      f.width <= offsetHeight * videoWidth / videoHeight < f.width + 1.0
    ensures f.width == offsetWidth ==>
      f.height <= offsetWidth * videoHeight / videoWidth < f.height + 1.0
    ensures f.widthPadding >= 0 && f.heightPadding >= 0
    ensures f.widthPadding as real <= (offsetWidth - f.width) / 2.0 < f.widthPadding as real + 1.0
    ensures f.heightPadding as real <= (offsetHeight - f.height) / 2.0 < f.heightPadding as real + 1.0
  {
    var videoRatio := videoWidth / videoHeight;
    var containerRatio := offsetWidth / offsetHeight;
    if containerRatio > videoRatio then
      FitWide(videoWidth, videoHeight, offsetWidth, offsetHeight);
      var exact := offsetHeight * videoRatio;
      assert exact == offsetHeight * videoWidth / videoHeight;
      var width := Floor(exact) as real;
      Frame(width, offsetHeight, Floor((offsetWidth - width) / 2.0), Floor((offsetHeight - offsetHeight) / 2.0))
    else
      FitTall(videoWidth, videoHeight, offsetWidth, offsetHeight);
      var exact := offsetWidth / videoRatio;
      assert exact == offsetWidth * videoHeight / videoWidth;
      var height := Floor(exact) as real;
      Frame(offsetWidth, height, Floor((offsetWidth - offsetWidth) / 2.0), Floor((offsetHeight - height) / 2.0))
  }

  /** An element wider than the video: the picture's width `offsetHeight * videoRatio` fits inside it. */
  lemma FitWide(videoWidth: real, videoHeight: real, offsetWidth: real, offsetHeight: real)
    requires videoWidth > 0.0 && videoHeight > 0.0 && offsetWidth > 0.0 && offsetHeight > 0.0
    requires offsetWidth / offsetHeight > videoWidth / videoHeight
    ensures 0.0 <= offsetHeight * (videoWidth / videoHeight) < offsetWidth
    ensures offsetHeight * (videoWidth / videoHeight) == offsetHeight * videoWidth / videoHeight
  {
    var r := videoWidth / videoHeight;
    var c := offsetWidth / offsetHeight;
    assert c * offsetHeight == offsetWidth;
    assert (c - r) * offsetHeight > 0.0;
    Distribute(c, r, offsetHeight);
    Commute(r, offsetHeight);
  }

  /** An element no wider than the video: the picture's height `offsetWidth / videoRatio` fits inside it. */
  lemma FitTall(videoWidth: real, videoHeight: real, offsetWidth: real, offsetHeight: real)
    requires videoWidth > 0.0 && videoHeight > 0.0 && offsetWidth > 0.0 && offsetHeight > 0.0
    requires !(offsetWidth / offsetHeight > videoWidth / videoHeight)
    ensures 0.0 <= offsetWidth / (videoWidth / videoHeight) <= offsetHeight
    ensures offsetWidth / (videoWidth / videoHeight) == offsetWidth * videoHeight / videoWidth
  {
    var r := videoWidth / videoHeight;
    var c := offsetWidth / offsetHeight;
    assert c <= r;
    assert c * offsetHeight == offsetWidth;
    MulMono(c, r, offsetHeight);
    assert offsetWidth <= r * offsetHeight;
    assert offsetWidth / r <= offsetHeight;
  }

  /**
   * The letterbox of a video in an element, or `None` where JavaScript's
   * arithmetic leaves the real numbers: a zero size, or a picture floored to
   * zero width, divides by zero.
   */
  function Letterbox(videoWidth: real, videoHeight: real, offsetWidth: real, offsetHeight: real): (f: Option<Frame>)
    ensures f.Some? <==> (videoWidth > 0.0 && videoHeight > 0.0 && offsetWidth > 0.0 && offsetHeight > 0.0
      && Fit(videoWidth, videoHeight, offsetWidth, offsetHeight).width > 0.0)
    ensures f.Some? ==> f.value == Fit(videoWidth, videoHeight, offsetWidth, offsetHeight)
  {
    if videoWidth > 0.0 && videoHeight > 0.0 && offsetWidth > 0.0 && offsetHeight > 0.0
      && Fit(videoWidth, videoHeight, offsetWidth, offsetHeight).width > 0.0
    then Some(Fit(videoWidth, videoHeight, offsetWidth, offsetHeight))
    else None
  }

  /**
   * A pointer position relative to the element, mapped to the native frame:
   * the padding is taken off and both axes are scaled by `videoWidth / width`.
   */
  function ClickPoint(mouseX: real, mouseY: real, video: MediaElement, offsetWidth: real, offsetHeight: real)
    : (p: Option<Point>)
    ensures p.Some? <==> Letterbox(video.videoWidth, video.videoHeight, offsetWidth, offsetHeight).Some?
  {
    match Letterbox(video.videoWidth, video.videoHeight, offsetWidth, offsetHeight)
    case None => None
    case Some(f) => Some(Unletterbox(mouseX, mouseY, f, video.videoWidth))
  }

  /**
   * A point over the element, moved to the picture's top-left corner and
   * scaled from the displayed width to the native width.
   */
  function Unletterbox(mouseX: real, mouseY: real, f: Frame, videoWidth: real): Point
    requires f.width != 0.0
  {
    var scaleRatio := videoWidth / f.width;
    Point((mouseX - f.widthPadding as real) * scaleRatio, (mouseY - f.heightPadding as real) * scaleRatio)
  }

  /** The top-left corner of the picture is the origin of the native frame. */
  lemma CornerIsOrigin(video: MediaElement, offsetWidth: real, offsetHeight: real)
    requires Letterbox(video.videoWidth, video.videoHeight, offsetWidth, offsetHeight).Some?
    ensures var f := Letterbox(video.videoWidth, video.videoHeight, offsetWidth, offsetHeight).value;
      ClickPoint(f.widthPadding as real, f.heightPadding as real, video, offsetWidth, offsetHeight)
        == Some(Point(0.0, 0.0))
  {
    var f := Letterbox(video.videoWidth, video.videoHeight, offsetWidth, offsetHeight).value;
    var s := video.videoWidth / f.width;
    var p := ClickPoint(f.widthPadding as real, f.heightPadding as real, video, offsetWidth, offsetHeight);
    assert p.value.x == (f.widthPadding as real - f.widthPadding as real) * s == 0.0;
    assert p.value.y == (f.heightPadding as real - f.heightPadding as real) * s == 0.0;
  }

  /** The right edge of the picture is the last column of the native frame. */
  lemma RightEdgeIsVideoWidth(video: MediaElement, offsetWidth: real, offsetHeight: real, mouseY: real)
    requires Letterbox(video.videoWidth, video.videoHeight, offsetWidth, offsetHeight).Some?
    ensures var f := Letterbox(video.videoWidth, video.videoHeight, offsetWidth, offsetHeight).value;
      ClickPoint(f.widthPadding as real + f.width, mouseY, video, offsetWidth, offsetHeight).value.x
        == video.videoWidth
  {
    var f := Letterbox(video.videoWidth, video.videoHeight, offsetWidth, offsetHeight).value;
    RightEdgeScales(f, video.videoWidth, mouseY);
  }

  /** The scaling alone: the displayed width maps onto the native width. */
  lemma RightEdgeScales(f: Frame, videoWidth: real, mouseY: real)
    requires f.width != 0.0
    ensures Unletterbox(f.widthPadding as real + f.width, mouseY, f, videoWidth).x == videoWidth
  {
    var s := videoWidth / f.width;
    assert f.widthPadding as real + f.width - f.widthPadding as real == f.width;
    DivMul(videoWidth, f.width);
    Commute(s, f.width);
  }

  /** Moving the pointer by one CSS pixel moves the point by `videoWidth / width` native pixels. */
  lemma ClickScales(video: MediaElement, offsetWidth: real, offsetHeight: real, mouseX: real, mouseY: real)
    requires Letterbox(video.videoWidth, video.videoHeight, offsetWidth, offsetHeight).Some?
    ensures var f := Letterbox(video.videoWidth, video.videoHeight, offsetWidth, offsetHeight).value;
      var p := ClickPoint(mouseX, mouseY, video, offsetWidth, offsetHeight).value;
      var q := ClickPoint(mouseX + 1.0, mouseY + 1.0, video, offsetWidth, offsetHeight).value;
      q.x - p.x == video.videoWidth / f.width && q.y - p.y == video.videoWidth / f.width
  {
    var f := Letterbox(video.videoWidth, video.videoHeight, offsetWidth, offsetHeight).value;
    var s := video.videoWidth / f.width;
    Distribute(mouseX + 1.0 - f.widthPadding as real, mouseX - f.widthPadding as real, s);
    Distribute(mouseY + 1.0 - f.heightPadding as real, mouseY - f.heightPadding as real, s);
  }

  /** How a click on the element sits on the page: its `offsetLeft` and `offsetTop` chains and its size. */
  datatype ElementLayout = ElementLayout(lefts: seq<real>, tops: seq<real>, offsetWidth: real, offsetHeight: real)

  /** The `onClick` prop: absent, or present and calling `preventDefault` or not. */
  datatype ClickHandler = NoHandler | Handler(preventsDefault: bool)

  /** The component, over the state of its `<video>` element. */
  class VideoComponent {
    /** The element the component drives. */
    var element: MediaElement
    /** The click positions passed to the `onClick` prop, in order. */
    var clicks: seq<Option<Point>>

    constructor(element: MediaElement)
      ensures this.element == element && clicks == []
    {
      this.element := element;
      clicks := [];
    }

    /** `play`: the element starts playing. */
    method Play()
      modifies this
      ensures element == old(element).(paused := false) && clicks == old(clicks)
    {
      element := element.(paused := false);
    }

    /** `pause`: the element stops. */
    method Pause()
      modifies this
      ensures element == old(element).(paused := true) && clicks == old(clicks)
    {
      element := element.(paused := true);
    }

    /** `togglePlay`: play a paused element, pause a playing one. */
    method TogglePlay()
      modifies this
      ensures element == old(element).(paused := !old(element).paused) && clicks == old(clicks)
    {
      if element.paused {
        Play();
      } else {
        Pause();
      }
    }

    /** `seek`: move the play head. */
    method Seek(currentTime: real)
      modifies this
      ensures element == old(element).(currentTime := currentTime) && clicks == old(clicks)
    {
      element := element.(currentTime := currentTime);
    }

    /** `seekByPercent`: a fraction outside [0, 1] throws; otherwise seek to that share of the duration. */
    method SeekByPercent(percent: real) returns (ok: bool)
      modifies this
      ensures ok <==> 0.0 <= percent <= 1.0
      ensures ok ==> element == old(element).(currentTime := old(element).duration * percent)
      ensures !ok ==> element == old(element)
      ensures clicks == old(clicks)
    {
      if !(0.0 <= percent && percent <= 1.0) {
        return false;
      }
      Seek(element.duration * percent);
      ok := true;
    }

    /** `seekByMilliseconds`: seek to a time given in milliseconds. */
    method SeekByMilliseconds(time: real)
      modifies this
      ensures element == old(element).(currentTime := element.currentTime) && clicks == old(clicks)
      ensures element.currentTime * 1000.0 == time
    {
      Seek(time / 1000.0);
    }

    /** `playbackRate`: set the element's speed. */
    method PlaybackRate(playbackRate: real)
      modifies this
      ensures element == old(element).(playbackRate := playbackRate) && clicks == old(clicks)
    {
      element := element.(playbackRate := playbackRate);
    }

    /** `mute`. */
    method Mute()
      modifies this
      ensures element == old(element).(muted := true) && clicks == old(clicks)
    {
      element := element.(muted := true);
    }

    /** `unmute`. */
    method Unmute()
      modifies this
      ensures element == old(element).(muted := false) && clicks == old(clicks)
    {
      element := element.(muted := false);
    }

    /** `volume`: a volume outside [0, 1] throws and leaves the element as it was. */
    method Volume(volume: real) returns (ok: bool)
      modifies this
      ensures ok <==> 0.0 <= volume <= 1.0
      ensures element == (if ok then old(element).(volume := volume) else old(element))
      ensures clicks == old(clicks)
    {
      if !(0.0 <= volume && volume <= 1.0) {
        return false;
      }
      element := element.(volume := volume);
      ok := true;
    }

    /** `findPos`: the node's offset plus that of every `offsetParent` above it. */
    method FindPos(chain: seq<real>) returns (val: real)
      requires chain != []
      ensures val == Sum(chain)
    {
      val := chain[0];
      var i := 1;
      SumStep(chain, 0);
      while i < |chain|
        invariant 1 <= i <= |chain|
        invariant val + Sum(chain[i..]) == Sum(chain)
      {
        SumStep(chain, i);
        val := val + chain[i];
        i := i + 1;
      }
    }

    /** `calculateClickPosition`: the page position of a click, as a point of the native frame. */
    method CalculateClickPosition(pageX: real, pageY: real, layout: ElementLayout) returns (p: Option<Point>)
      requires layout.lefts != [] && layout.tops != []
      ensures p == ClickPoint(pageX - Sum(layout.lefts), pageY - Sum(layout.tops), element,
        layout.offsetWidth, layout.offsetHeight)
    {
      var left := FindPos(layout.lefts);
      var top := FindPos(layout.tops);
      p := ClickPoint(pageX - left, pageY - top, element, layout.offsetWidth, layout.offsetHeight);
    }

    /**
     * `handleClick`: the `onClick` prop sees the click's position first; unless
     * it prevented the default, the click toggles playback.
     */
    method HandleClick(pageX: real, pageY: real, layout: ElementLayout, onClick: ClickHandler)
      requires layout.lefts != [] && layout.tops != []
      modifies this
      ensures var at := ClickPoint(pageX - Sum(layout.lefts), pageY - Sum(layout.tops), old(element),
        layout.offsetWidth, layout.offsetHeight);
        clicks == old(clicks) + (if onClick.Handler? then [at] else [])
      ensures element == if onClick == Handler(true) then old(element)
        else old(element).(paused := !old(element).paused)
    {
      if onClick.Handler? {
        var at := CalculateClickPosition(pageX, pageY, layout);
        clicks := clicks + [at];
      }
      if onClick != Handler(true) {
        TogglePlay();
      }
    }
  }
}
