/**
 * The timing store (src/data/VideoPlayerTimeStore.js): a reducer over the
 * fast-changing `VideoPlayerTimeState` record, fed by `updateState` actions.
 */
module VideoPlayerTimeStore {
  import opened Wrappers
  import opened Numbers
  import opened VideoState
  import opened PlayerAction

  /**
   * The `VideoPlayerTimeState` record. `progress` and `buffered` are `None`
   * where JavaScript computes `NaN` or an infinity (a zero duration).
   */
  datatype TimeState = TimeState(
    currentTime: real,
    duration: real,
    progress: Option<real>,
    buffered: Option<real>,
    bufferedSections: seq<BufferRecord>,
    bufferLength: real)

  /** The record defaults: everything at zero, no sections. */
  function InitialState(): (s: TimeState)
    ensures s.currentTime == 0.0 && s.duration == 0.0 && s.bufferLength == 0.0
    ensures s.progress == Some(0.0) && s.buffered == Some(0.0) && s.bufferedSections == []
  {
    TimeState(0.0, 0.0, Some(0.0), Some(0.0), [], 0.0)
  }

  /** A position as a percentage of the duration. */
  function Percent(position: real, duration: real): (p: Option<real>)
    ensures p.Some? <==> duration != 0.0
    ensures p.Some? ==> p.value * duration == position * 100.0
  {
    match Ratio(position, duration)
    case None => None
    case Some(q) => Some(q * 100.0)
  }

  /** How far the last buffered range reaches, in percent of the duration; 0 with no ranges. */
  function BufferedPercent(video: MediaElement): (p: Option<real>)
    ensures video.buffered == [] ==> p == Some(0.0)
    ensures video.buffered != [] ==>
      p == Percent(video.buffered[|video.buffered| - 1].end, video.duration)
  {
    if |video.buffered| > 0 then Percent(video.buffered[|video.buffered| - 1].end, video.duration)
    else Some(0.0)
  }

  /** The `updateState` handler. */
  function UpdateStateHandler(state: TimeState, video: Option<MediaElement>, dash: Option<DashPlayer>)
    : (r: Result<TimeState, string>)
    ensures r.Ok? <==> video.Some?
  {
    if video.None? then Err("action.video is not defined")
    else
      var v := video.value;
      var fromVideo := state.(
        currentTime := v.currentTime,
        duration := v.duration,
        progress := Percent(v.currentTime, v.duration),
        buffered := BufferedPercent(v),
        bufferedSections := BufferedSections(v.buffered, v.duration));
      if dash.Some? && dash.value.isReady then
        Ok(fromVideo.(duration := dash.value.duration, bufferLength := dash.value.bufferLength))
      else Ok(fromVideo)
  }

  /** The reducer's answer: the next state, and whether it differs from the old one. */
  datatype Outcome = Outcome(state: TimeState, changed: bool)

  /**
   * `reduce`: a non-string type is an error, every type but `updateState`
   * keeps the state, and a result equal to the old state is not a change.
   */
  function Reduce(state: TimeState, action: Action): (r: Result<Outcome, string>)
    ensures action.Untyped? ==> r.Err?
    ensures !action.Untyped? && !action.UpdateStateAction? ==> r == Ok(Outcome(state, false))
    ensures r.Ok? ==> (r.value.changed <==> r.value.state != state)
  {
    match action
    case Untyped => Err("action.type is not a string")
    case UpdateStateAction(video, dash) =>
      (match UpdateStateHandler(state, video, dash)
       case Err(e) => Err(e)
       case Ok(updated) => Ok(if updated == state then Outcome(state, false) else Outcome(updated, true)))
    case _ => Ok(Outcome(state, false))
  }

  /** The state an `updateState` with an element leads to, with and without a ready dash player. */
  lemma UpdateStateResult(state: TimeState, video: MediaElement, dash: Option<DashPlayer>)
    ensures Reduce(state, UpdateStateAction(Some(video), dash)).Ok?
    ensures Reduce(state, UpdateStateAction(Some(video), dash)).value.state
      == UpdateStateHandler(state, Some(video), dash).value
    ensures var fromVideo := state.(
        currentTime := video.currentTime,
        duration := video.duration,
        progress := Percent(video.currentTime, video.duration),
        buffered := BufferedPercent(video),
        bufferedSections := BufferedSections(video.buffered, video.duration));
      UpdateStateHandler(state, Some(video), dash).value
        == if dash.Some? && dash.value.isReady
           then fromVideo.(duration := dash.value.duration, bufferLength := dash.value.bufferLength)
           else fromVideo
  {
  }

  /**
   * An element update records the current time, the progress and buffered
   * percentages over the element's duration, and exactly `getBufferedSections`.
   */
  lemma UpdateStateFields(state: TimeState, video: MediaElement, dash: Option<DashPlayer>)
    ensures var s := Reduce(state, UpdateStateAction(Some(video), dash)).value.state;
      s.currentTime == video.currentTime
      && (s.progress.Some? <==> video.duration != 0.0)
      && (s.progress.Some? ==> s.progress.value * video.duration == video.currentTime * 100.0)
      && s.buffered == BufferedPercent(video)
      && s.bufferedSections == BufferedSections(video.buffered, video.duration)
  {
    UpdateStateResult(state, video, dash);
  }

  /** Duration and buffer length come from a ready dash player; otherwise the element's duration and the old buffer length. */
  lemma UpdateStateDuration(state: TimeState, video: MediaElement, dash: Option<DashPlayer>)
    ensures var s := Reduce(state, UpdateStateAction(Some(video), dash)).value.state;
      if dash.Some? && dash.value.isReady then
        s.duration == dash.value.duration && s.bufferLength == dash.value.bufferLength
      else
        s.duration == video.duration && s.bufferLength == state.bufferLength
  {
    UpdateStateResult(state, video, dash);
  }

  /** An `updateState` action without an element is rejected. */
  lemma UpdateStateNeedsVideo(state: TimeState, dash: Option<DashPlayer>)
    ensures Reduce(state, UpdateStateAction(None, dash)).Err?
  {
  }

  /** Half-way through a ten-second video the progress is 50. */
  lemma ProgressHalfway(state: TimeState, video: MediaElement)
    requires video.currentTime == 5.0 && video.duration == 10.0
    ensures Reduce(state, UpdateStateAction(Some(video), None)).value.state.progress == Some(50.0)
  {
    UpdateStateResult(state, video, None);
    assert 5.0 / 10.0 * 100.0 == 50.0;
  }

  /** The store object: it holds the current timing state, which each dispatch replaces. */
  class Store {
    var state: TimeState

    /** `getInitialState`. */
    constructor()
      ensures state == InitialState()
    {
      state := InitialState();
    }

    /** Runs `reduce` on the held state; a thrown invariant leaves the state as it was. */
    method Dispatch(action: Action) returns (r: Result<bool, string>)
      modifies this
      ensures Reduce(old(state), action).Ok? ==>
        state == Reduce(old(state), action).value.state && r == Ok(Reduce(old(state), action).value.changed)
      ensures Reduce(old(state), action).Err? ==> state == old(state) && r.Err?
    {
      match Reduce(state, action)
      case Ok(outcome) =>
        state := outcome.state;
        r := Ok(outcome.changed);
      case Err(e) =>
        r := Err(e);
    }
  }
}
