/**
 * The progress bar (src/components/controls/ProgressBar.js): a press starts a
 * scrub session that pauses the player, moves while the button is down seek
 * by percent, and the release ends the session, resuming playback only if the
 * player was playing when the press began.
 */
module ProgressBar {
  import opened Wrappers
  import opened Layout
  import opened PlayerAction
  import opened VideoPlayerActions

  /** JavaScript truthiness of a fraction: neither 0 nor `NaN`. */
  predicate Truthy(percent: Option<real>) {
    percent.Some? && percent.value != 0.0
  }

  /**
   * The props the handlers read: whether the player is playing, and which of
   * the optional callbacks are functions.
   */
  datatype Props = Props(isPlaying: bool, hasOnScrub: bool, hasOnMouseDown: bool, hasOnScrubEnd: bool)

  /** The callbacks the bar makes, in order. */
  datatype Callback = Scrubbed(percent: real) | MouseWentDown | ScrubEnded

  /**
   * Whether `updateDimensions` stores a measurement (`None` for `NaN`): a
   * number that differs from the stored one, on either axis.
   */
  predicate NeedsResize(width: Option<int>, height: Option<int>, measuredWidth: Option<int>, measuredHeight: Option<int>) {
    (measuredWidth.Some? && width != measuredWidth) || (measuredHeight.Some? && height != measuredHeight)
  }

  /** Once a measurement is stored, the same measurement does not store it again. */
  lemma ResizeSettles(width: Option<int>, height: Option<int>, measuredWidth: Option<int>, measuredHeight: Option<int>)
    ensures var stored := if NeedsResize(width, height, measuredWidth, measuredHeight)
        then (measuredWidth, measuredHeight) else (width, height);
      !NeedsResize(stored.0, stored.1, measuredWidth, measuredHeight)
  {
  }

  /** The component's state. */
  class ProgressBarComponent {
    /** The container's size as last stored; -1 until measured. */
    var containerWidth: Option<int>
    var containerHeight: Option<int>
    /** Whether a scrub session is on. */
    var mouseDown: bool
    /** Whether the player was playing when the session began. */
    var wasPlaying: bool
    /** Whether the document-wide `mouseup`/`mousemove` listeners are attached. */
    var listening: bool
    /** The callbacks made so far. */
    var calls: seq<Callback>

    constructor()
      ensures containerWidth == Some(-1) && containerHeight == Some(-1)
      ensures !mouseDown && !wasPlaying && !listening && calls == []
    {
      containerWidth := Some(-1);
      containerHeight := Some(-1);
      mouseDown := false;
      wasPlaying := false;
      listening := false;
      calls := [];
    }

    /** `updateDimensions`: store a new measurement of the container, and only a new one. */
    method UpdateDimensions(measuredWidth: Option<int>, measuredHeight: Option<int>)
      modifies this
      ensures NeedsResize(old(containerWidth), old(containerHeight), measuredWidth, measuredHeight) ==>
        containerWidth == measuredWidth && containerHeight == measuredHeight
      ensures !NeedsResize(old(containerWidth), old(containerHeight), measuredWidth, measuredHeight) ==>
        containerWidth == old(containerWidth) && containerHeight == old(containerHeight)
      ensures mouseDown == old(mouseDown) && wasPlaying == old(wasPlaying)
      ensures listening == old(listening) && calls == old(calls)
    {
      if NeedsResize(containerWidth, containerHeight, measuredWidth, measuredHeight) {
        containerWidth := measuredWidth;
        containerHeight := measuredHeight;
      }
    }

    /** `scrubToPercent`: ask the video to seek, and tell `onScrub`. */
    method ScrubToPercent(percent: real, props: Props, actions: Actions)
      modifies this, actions
      ensures actions.emitted == old(actions.emitted) + [Event(SeekByPercent, [percent])]
      ensures actions.queued == old(actions.queued) && actions.listeners == old(actions.listeners)
      ensures calls == old(calls) + (if props.hasOnScrub then [Scrubbed(percent)] else [])
      ensures containerWidth == old(containerWidth) && containerHeight == old(containerHeight)
      ensures mouseDown == old(mouseDown) && wasPlaying == old(wasPlaying) && listening == old(listening)
    {
      actions.Relay(SeekByPercent, [percent]);
      if props.hasOnScrub {
        calls := calls + [Scrubbed(percent)];
      }
    }

    /**
     * `handleMouseDown`: seek to the pointer unless it is at 0 (or `NaN`),
     * remember whether the player was playing, and start the scrub.
     */
    method HandleMouseDown(pageX: real, bar: Box, props: Props, actions: Actions)
      modifies this, actions
      ensures var p := Position(pageX - Sum(bar.offsets), bar.offsetWidth);
        actions.emitted == old(actions.emitted)
          + (if Truthy(p) then [Event(SeekByPercent, [p.value])] else []) + [Event(Pause, [])]
        && calls == old(calls)
          + (if Truthy(p) && props.hasOnScrub then [Scrubbed(p.value)] else [])
          + (if props.hasOnMouseDown then [MouseWentDown] else [])
      ensures actions.queued == old(actions.queued) + [UpdateAction(Some(ScrubBody(true)))]
      ensures actions.listeners == old(actions.listeners)
      ensures mouseDown && wasPlaying == props.isPlaying && listening
      ensures containerWidth == old(containerWidth) && containerHeight == old(containerHeight)
    {
      var percent := EventPosition(pageX, bar);
      if Truthy(percent) {
        ScrubToPercent(percent.value, props, actions);
      }
      mouseDown := true;
      wasPlaying := props.isPlaying;
      actions.ScrubStart();
      listening := true;
      if props.hasOnMouseDown {
        calls := calls + [MouseWentDown];
      }
    }

    /** `handleMouseUp`: end the scrub, playing again only if the player was playing at the press. */
    method HandleMouseUp(props: Props, actions: Actions)
      modifies this, actions
      ensures actions.queued == old(actions.queued) + [UpdateAction(Some(ScrubBody(false)))]
      ensures actions.emitted == old(actions.emitted) + (if old(wasPlaying) then [Event(Signal.Play, [])] else [])
      ensures actions.listeners == old(actions.listeners)
      ensures !mouseDown && !wasPlaying && !listening
      ensures calls == old(calls) + (if props.hasOnScrubEnd then [ScrubEnded] else [])
      ensures containerWidth == old(containerWidth) && containerHeight == old(containerHeight)
    {
      actions.ScrubStop(wasPlaying);
      wasPlaying := false;
      mouseDown := false;
      listening := false;
      if props.hasOnScrubEnd {
        calls := calls + [ScrubEnded];
      }
    }

    /** `handleMoveScrub`: outside a session nothing happens; inside, seek to the pointer unless it is at 0. */
    method HandleMoveScrub(pageX: real, bar: Box, props: Props, actions: Actions)
      modifies this, actions
      ensures var p := Position(pageX - Sum(bar.offsets), bar.offsetWidth);
        var seeks := old(mouseDown) && Truthy(p);
        actions.emitted == old(actions.emitted) + (if seeks then [Event(SeekByPercent, [p.value])] else [])
        && calls == old(calls) + (if seeks && props.hasOnScrub then [Scrubbed(p.value)] else [])
      ensures actions.queued == old(actions.queued) && actions.listeners == old(actions.listeners)
      ensures mouseDown == old(mouseDown) && wasPlaying == old(wasPlaying) && listening == old(listening)
      ensures containerWidth == old(containerWidth) && containerHeight == old(containerHeight)
    {
      if !mouseDown {
        return;
      }
      var percent := EventPosition(pageX, bar);
      if Truthy(percent) {
        ScrubToPercent(percent.value, props, actions);
      }
    }
  }
}
