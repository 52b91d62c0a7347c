/**
 * The coarse player store (src/data/VideoPlayerStore.js): a reducer over the
 * `VideoPlayerState` record that follows the media element, the dash.js
 * player and direct updates, and the store object that holds its state.
 */
module VideoPlayerStore {
  import opened Wrappers
  import opened Numbers
  import opened VideoState
  import opened PlayerAction

  /**
   * The `VideoPlayerState` record. `null`/`undefined` fields are `None`;
   * `streamInitialized` starts as `null`, which the model writes as `false`
   * (it is only ever tested for truthiness).
   */
  datatype PlayerState = PlayerState(
    isPlaying: bool,
    isScrubbing: bool,
    isMuted: bool,
    isAutoPlay: bool,
    isEnded: bool,
    isLooping: bool,
    canPlay: bool,
    currentSrc: Option<string>,
    error: Option<string>,
    networkState: int,
    readyState: int,
    playbackRate: real,
    videoWidth: real,
    videoHeight: real,
    volume: real,
    aspectRatio: Option<real>,
    frameRate: real,
    options: PlayerOptions,
    bitrates: Option<seq<BitrateInfo>>,
    bitrate: Bitrate,
    streamInitialized: bool,
    qualityIndex: Option<int>,
    streamInfo: Option<StreamInfo>)

  /** The record defaults: stopped, normal speed, full volume, 30 fps, 16:9, no shortcuts, no stream. */
  function InitialState(): (s: PlayerState)
    ensures !s.isPlaying && !s.isScrubbing && !s.canPlay
    ensures s.playbackRate == 1.0 && s.volume == 1.0 && s.frameRate == 30.0
    ensures s.aspectRatio == Some(16.0 / 9.0)
    ensures !s.options.keyboardShortcuts
    ensures s.bitrates.None? && s.bitrate.Unset? && !s.streamInitialized
    ensures s.qualityIndex.None? && s.streamInfo.None?
  {
    PlayerState(
      isPlaying := false, isScrubbing := false, isMuted := false, isAutoPlay := false,
      isEnded := false, isLooping := false, canPlay := false,
      currentSrc := None, error := None, networkState := 0, readyState := 0,
      playbackRate := 1.0, videoWidth := 0.0, videoHeight := 0.0, volume := 1.0,
      aspectRatio := Some(16.0 / 9.0), frameRate := 30.0,
      options := PlayerOptions(keyboardShortcuts := false),
      bitrates := None, bitrate := Unset, streamInitialized := false,
      qualityIndex := None, streamInfo := None)
  }

  /** Sets the one field a body key names. */
  function Apply(state: PlayerState, setting: Setting): PlayerState {
    match setting
    case SetIsPlaying(v) => state.(isPlaying := v)
    case SetIsScrubbing(v) => state.(isScrubbing := v)
    case SetIsMuted(v) => state.(isMuted := v)
    case SetIsAutoPlay(v) => state.(isAutoPlay := v)
    case SetIsEnded(v) => state.(isEnded := v)
    case SetIsLooping(v) => state.(isLooping := v)
    case SetCanPlay(v) => state.(canPlay := v)
    case SetCurrentSrc(v) => state.(currentSrc := v)
    case SetError(v) => state.(error := v)
    case SetNetworkState(v) => state.(networkState := v)
    case SetReadyState(v) => state.(readyState := v)
    case SetPlaybackRate(v) => state.(playbackRate := v)
    case SetVideoWidth(v) => state.(videoWidth := v)
    case SetVideoHeight(v) => state.(videoHeight := v)
    case SetVolume(v) => state.(volume := v)
    case SetAspectRatio(v) => state.(aspectRatio := v)
    case SetFrameRate(v) => state.(frameRate := v)
    case SetOptions(v) => state.(options := v)
    case SetBitrates(v) => state.(bitrates := v)
    case SetBitrate(v) => state.(bitrate := v)
    case SetStreamInitialized(v) => state.(streamInitialized := v)
    case SetQualityIndex(v) => state.(qualityIndex := v)
    case SetStreamInfo(v) => state.(streamInfo := v)
  }

  /** `state.merge(body)`: the body's keys in order, each overwriting its field. */
  function Merge(state: PlayerState, body: seq<Setting>): PlayerState
    decreases |body|
  {
    if body == [] then state else Merge(Apply(state, body[0]), body[1..])
  }

  /** Merging two bodies one after the other is merging their concatenation: later keys win. */
  lemma {:induction false} MergeAppend(state: PlayerState, first: seq<Setting>, second: seq<Setting>)
    ensures Merge(state, first + second) == Merge(Merge(state, first), second)
    decreases |first|
  {
    if first != [] {
      assert (first + second)[1..] == first[1..] + second;
      MergeAppend(Apply(state, first[0]), first[1..], second);
    } else {
      assert first + second == second;
    }
  }

  /** A body that repeats the values the state already has leaves it as it is. */
  lemma MergeSameScrubbing(state: PlayerState)
    ensures Merge(state, [SetIsScrubbing(state.isScrubbing)]) == state
  {
  }

  /** `state.options.merge(body)`. */
  function MergeOptions(options: PlayerOptions, body: seq<OptionSetting>): (r: PlayerOptions)
    ensures body == [] ==> r == options
    ensures body != [] ==> r.keyboardShortcuts == body[|body| - 1].on
    decreases |body|
  {
    if body == [] then options
    else MergeOptions(PlayerOptions(keyboardShortcuts := body[0].on), body[1..])
  }

  /** The fields `getDashStates` contributes when the player is ready. */
  datatype DashStates = DashStates(bitrates: Option<seq<BitrateInfo>>, bitrate: Bitrate, volume: real)

  /** `getDashStates`: nothing from a player that is not ready. */
  function GetDashStates(dash: DashPlayer, state: PlayerState): (r: Option<DashStates>)
    ensures r.Some? <==> dash.isReady
    ensures r.Some? ==> r.value.volume == dash.volume
    ensures r.Some? ==> (r.value.bitrates.Some? <==> state.streamInitialized)
    ensures r.Some? && r.value.bitrates.Some? ==> r.value.bitrates.value == dash.bitrateList
    ensures r.Some? ==> (r.value.bitrate.Unset? <==> !(dash.hasMetrics && state.streamInfo.Some?))
    ensures r.Some? && !r.value.bitrate.Unset? ==> (r.value.bitrate.NotANumber? <==> !dash.representationSwitch)
    ensures r.Some? && r.value.bitrate.Kbps? ==>
      dash.bandwidth / 1000.0 - 0.5 < r.value.bitrate.kbps as real <= dash.bandwidth / 1000.0 + 0.5
  {
    if !dash.isReady then None
    else
      var bitrate :=
        if dash.hasMetrics && state.streamInfo.Some? then
          (if dash.representationSwitch then Kbps(Round(dash.bandwidth / 1000.0)) else NotANumber)
        else Unset;
      Some(DashStates(
        if state.streamInitialized then Some(dash.bitrateList) else None,
        bitrate,
        dash.volume))
  }

  /** The fields `updateState` reads off the media element. */
  function VideoFields(state: PlayerState, video: MediaElement): PlayerState {
    state.(
      isPlaying := IsPlaying(video),
      isMuted := video.muted,
      isAutoPlay := video.autoplay,
      isEnded := video.ended,
      isLooping := video.loop,
      playbackRate := if video.playbackRate != 0.0 then video.playbackRate else state.playbackRate,
      currentSrc := video.currentSrc,
      error := video.error,
      networkState := video.networkState,
      readyState := video.readyState,
      canPlay := video.readyState >= 3,
      videoHeight := video.videoHeight,
      videoWidth := video.videoWidth,
      volume := video.volume,
      aspectRatio := Ratio(video.videoWidth, video.videoHeight))
  }

  /** The `updateState` handler: the element's fields, overridden by a dash player's where it has any. */
  function UpdateStateHandler(state: PlayerState, video: Option<MediaElement>, dash: Option<DashPlayer>)
    : (r: Result<PlayerState, string>)
    ensures r.Ok? <==> video.Some?
  {
    if video.None? then Err("action.video is not defined")
    else
      var fromVideo := VideoFields(state, video.value);
      var dashStates := if dash.Some? then GetDashStates(dash.value, state) else None;
      if dashStates.None? then Ok(fromVideo)
      else
        var d := dashStates.value;
        Ok(fromVideo.(bitrates := d.bitrates, bitrate := d.bitrate, volume := d.volume))
  }

  /** The `reset` handler: the defaults, keeping the options of the current state. */
  function ResetHandler(state: PlayerState): (r: PlayerState)
    ensures r.options == state.options
    ensures r.(options := InitialState().options) == InitialState()
  {
    InitialState().(options := state.options)
  }

  /** The `ActionMap` handler for the action's type; `None` where there is none. */
  function Handle(state: PlayerState, action: Action): (r: Option<Result<PlayerState, string>>)
    ensures r.None? <==> action.Unhandled? || action.Untyped?
    ensures r.Some? && r.value.Err? ==> action.UpdateStateAction? || action.UpdateAction? || action.UpdateOptionsAction?
  {
    match action
    case UpdateStateAction(video, dash) => Some(UpdateStateHandler(state, video, dash))
    case UpdateAction(body) =>
      Some(if body.None? then Err("action.body is not an object") else Ok(Merge(state, body.value)))
    case UpdateOptionsAction(body) =>
      Some(if body.None? then Err("action.body is not an object")
           else Ok(state.(options := MergeOptions(state.options, body.value))))
    case StreamInitializedAction => Some(Ok(state.(streamInitialized := true)))
    case ResetAction => Some(Ok(ResetHandler(state)))
    case PeriodSwitchAction(info) => Some(Ok(state.(streamInfo := info)))
    case UpdateQualityIndexAction(bitrate) =>
      Some(Ok(state.(qualityIndex := if bitrate.Some? then Some(bitrate.value.qualityIndex) else None)))
    case Unhandled(_) => None
    case Untyped => None
  }

  /** The reducer's answer: the next state, and whether it differs from the old one (a change event). */
  datatype Outcome = Outcome(state: PlayerState, changed: bool)

  /**
   * `reduce`: a non-string type is an error, a type without a handler keeps
   * the state, and a handler's result that equals the old state is not a change.
   */
  function Reduce(state: PlayerState, action: Action): (r: Result<Outcome, string>)
    ensures action.Untyped? ==> r.Err?
    ensures action.Unhandled? ==> r == Ok(Outcome(state, false))
    ensures r.Ok? ==> (r.value.changed <==> r.value.state != state)
  {
    if TypeOf(action).None? then Err("action.type is not a string")
    else
      match Handle(state, action)
      case None => Ok(Outcome(state, false))
      case Some(Err(e)) => Err(e)
      case Some(Ok(updated)) => Ok(if updated == state then Outcome(state, false) else Outcome(updated, true))
  }

  /** A handled action that does not throw leaves the reducer with the handler's result. */
  lemma ReduceHandled(state: PlayerState, action: Action)
    requires !action.Untyped? && Handle(state, action).Some? && Handle(state, action).value.Ok?
    ensures Reduce(state, action).Ok? && Reduce(state, action).value.state == Handle(state, action).value.value
  {
  }

  /** An `updateState` with an element is `VideoFields`, with a ready dash player's three fields on top. */
  lemma UpdateStateShape(state: PlayerState, video: MediaElement, dash: Option<DashPlayer>)
    ensures dash.Some? && dash.value.isReady ==>
      var d := GetDashStates(dash.value, state).value;
      UpdateStateHandler(state, Some(video), dash)
        == Ok(VideoFields(state, video).(bitrates := d.bitrates, bitrate := d.bitrate, volume := d.volume))
    ensures !(dash.Some? && dash.value.isReady) ==>
      UpdateStateHandler(state, Some(video), dash) == Ok(VideoFields(state, video))
  {
  }

  /** `updateState` copies the element's flags, source, error and states. */
  lemma UpdateStateCopies(state: PlayerState, video: MediaElement, dash: Option<DashPlayer>)
    ensures var s := UpdateStateHandler(state, Some(video), dash).value;
      s.isMuted == video.muted && s.isAutoPlay == video.autoplay
      && s.isEnded == video.ended && s.isLooping == video.loop
      && s.currentSrc == video.currentSrc && s.error == video.error
      && s.networkState == video.networkState && s.readyState == video.readyState
      && s.videoWidth == video.videoWidth && s.videoHeight == video.videoHeight
  {
    UpdateStateShape(state, video, dash);
  }

  /** `updateState` derives `isPlaying`, `canPlay` and the aspect ratio from the element. */
  lemma UpdateStateDerives(state: PlayerState, video: MediaElement, dash: Option<DashPlayer>)
    ensures var s := UpdateStateHandler(state, Some(video), dash).value;
      s.isPlaying == IsPlaying(video) && (s.canPlay <==> video.readyState >= 3)
      && (s.aspectRatio.Some? <==> video.videoHeight != 0.0)
      && (s.aspectRatio.Some? ==> s.aspectRatio.value * video.videoHeight == video.videoWidth)
  {
    UpdateStateShape(state, video, dash);
  }

  /** `updateState` keeps the fields the element does not report. */
  lemma UpdateStateKeeps(state: PlayerState, video: MediaElement, dash: Option<DashPlayer>)
    ensures var s := UpdateStateHandler(state, Some(video), dash).value;
      s.isScrubbing == state.isScrubbing && s.frameRate == state.frameRate
      && s.options == state.options && s.qualityIndex == state.qualityIndex
      && s.streamInfo == state.streamInfo && s.streamInitialized == state.streamInitialized
  {
    UpdateStateShape(state, video, dash);
  }

  /** An element that reports a rate of exactly 0 keeps the stored rate; any other rate is taken. */
  lemma PlaybackRateKept(state: PlayerState, video: MediaElement, dash: Option<DashPlayer>)
    ensures var s := UpdateStateHandler(state, Some(video), dash).value;
      s.playbackRate == (if video.playbackRate == 0.0 then state.playbackRate else video.playbackRate)
  {
    UpdateStateShape(state, video, dash);
  }

  /** Without a ready dash player the volume is the element's and the stream fields stay. */
  lemma UpdateStateWithoutDash(state: PlayerState, video: MediaElement, dash: Option<DashPlayer>)
    requires dash.None? || !dash.value.isReady
    ensures var s := UpdateStateHandler(state, Some(video), dash).value;
      s.volume == video.volume && s.bitrates == state.bitrates && s.bitrate == state.bitrate
  {
  }

  /** A ready dash player's volume, bitrate list and current bitrate override the element's. */
  lemma UpdateStateWithDash(state: PlayerState, video: MediaElement, dash: DashPlayer)
    requires dash.isReady
    ensures var s := UpdateStateHandler(state, Some(video), Some(dash)).value;
      var d := GetDashStates(dash, state).value;
      s.volume == dash.volume && s.bitrates == d.bitrates && s.bitrate == d.bitrate
  {
  }

  /** After an element update the player is never playing unless it can play. */
  lemma PlayingNeedsCanPlay(state: PlayerState, video: MediaElement, dash: Option<DashPlayer>)
    ensures var s := UpdateStateHandler(state, Some(video), dash).value;
      s.isPlaying ==> s.canPlay
  {
    UpdateStateDerives(state, video, dash);
  }

  /** An `updateState` action without an element is rejected by the reducer. */
  lemma UpdateStateNeedsVideo(state: PlayerState, dash: Option<DashPlayer>)
    ensures Reduce(state, UpdateStateAction(None, dash)).Err?
  {
  }

  /** `update` merges its body and rejects a missing one. */
  lemma UpdateMerges(state: PlayerState, body: Option<seq<Setting>>)
    ensures var r := Reduce(state, UpdateAction(body));
      (r.Ok? <==> body.Some?) && (r.Ok? ==> r.value.state == Merge(state, body.value))
  {
    if body.Some? {
      ReduceHandled(state, UpdateAction(body));
    }
  }

  /** `updateOptions` changes the options and nothing else. */
  lemma UpdateOptionsOnly(state: PlayerState, body: seq<OptionSetting>)
    ensures var r := Reduce(state, UpdateOptionsAction(Some(body)));
      r.Ok? && r.value.state == state.(options := MergeOptions(state.options, body))
  {
    ReduceHandled(state, UpdateOptionsAction(Some(body)));
  }

  /** `reset` returns to the defaults but keeps the current options. */
  lemma ResetKeepsOptions(state: PlayerState)
    ensures var r := Reduce(state, ResetAction);
      r.Ok? && r.value.state == ResetHandler(state)
  {
    ReduceHandled(state, ResetAction);
  }

  /** `streamInitialized` sets the flag and nothing else. */
  lemma StreamInitializedSets(state: PlayerState)
    ensures var r := Reduce(state, StreamInitializedAction);
      r.Ok? && r.value.state == state.(streamInitialized := true)
  {
    ReduceHandled(state, StreamInitializedAction);
  }

  /** `periodSwitch` records the new period's stream description and nothing else. */
  lemma PeriodSwitchSets(state: PlayerState, info: Option<StreamInfo>)
    ensures var r := Reduce(state, PeriodSwitchAction(info));
      r.Ok? && r.value.state == state.(streamInfo := info)
  {
    ReduceHandled(state, PeriodSwitchAction(info));
  }

  /** `updateQualityIndex` records the chosen entry's quality index, or clears it. */
  lemma QualityIndexSets(state: PlayerState, bitrate: Option<BitrateInfo>)
    ensures var r := Reduce(state, UpdateQualityIndexAction(bitrate));
      r.Ok? && r.value.state == state.(qualityIndex := if bitrate.Some? then Some(bitrate.value.qualityIndex) else None)
  {
    ReduceHandled(state, UpdateQualityIndexAction(bitrate));
  }

  /** A second `streamInitialized` is not a change. */
  lemma StreamInitializedTwice(state: PlayerState)
    ensures var first := Reduce(state, StreamInitializedAction).value.state;
      Reduce(first, StreamInitializedAction) == Ok(Outcome(first, false))
  {
    StreamInitializedSets(state);
    var first := state.(streamInitialized := true);
    assert first.(streamInitialized := true) == first;
  }

  /** `getFrameRateMilliseconds`: the length of a frame in milliseconds. */
  function FrameRateMilliseconds(state: PlayerState): (ms: Option<real>)
    ensures ms.Some? <==> state.frameRate != 0.0
    ensures ms.Some? ==> ms.value * state.frameRate == 1000.0
  {
    match Ratio(1.0, state.frameRate)
    case None => None
    case Some(perFrame) =>
      assert perFrame * state.frameRate == 1.0;
      Some(perFrame * 1000.0)
  }

  /** At the default 30 frames per second a frame lasts 1000/30 ms. */
  lemma DefaultFrameMilliseconds()
    ensures FrameRateMilliseconds(InitialState()) == Some(1000.0 / 30.0)
  {
    assert 1.0 / 30.0 * 1000.0 == 1000.0 / 30.0;
  }

  /** The store object: it holds the current state, which each dispatch replaces. */
  class Store {
    var state: PlayerState

    /** `getInitialState`. */
    constructor()
      ensures state == InitialState()
    {
      state := InitialState();
    }

    /** Runs `reduce` on the held state; a thrown invariant leaves the state as it was. */
    method Dispatch(action: Action) returns (r: Result<bool, string>)
      modifies this
      ensures Reduce(old(state), action).Ok? ==>
        state == Reduce(old(state), action).value.state && r == Ok(Reduce(old(state), action).value.changed)
      ensures Reduce(old(state), action).Err? ==> state == old(state) && r.Err?
    {
      match Reduce(state, action)
      case Ok(outcome) =>
        state := outcome.state;
        r := Ok(outcome.changed);
      case Err(e) =>
        r := Err(e);
    }

    /** `getFrameRateMilliseconds` on the held state. */
    function FrameMilliseconds(): (ms: Option<real>)
      reads this
      ensures ms.Some? <==> state.frameRate != 0.0
      ensures ms.Some? ==> ms.value * state.frameRate == 1000.0
    {
      FrameRateMilliseconds(state)
    }
  }
}
