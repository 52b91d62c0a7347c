/**
 * The closed set of action types (src/data/VideoPlayerConstants.js) and the
 * shapes of the actions dispatched to the two stores: the media element
 * snapshot, the dash.js snapshot, the `update` bodies and the stream records.
 */
module PlayerAction {
  import opened Wrappers
  import opened VideoState

  /** The action-type constants. */
  datatype ActionType =
    | Play | Stop | UpdateState | Update | UpdateOptions | ToggleBackground
    | StreamInitialized | Reset | PeriodSwitch | UpdateQualityIndex

  /** The string each constant stands for on the dispatcher. */
  function Name(t: ActionType): string {
    match t
    case Play => "VIDEO_PLAYER_PLAY"
    case Stop => "VIDEO_PLAYER_STOP"
    case UpdateState => "VIDEO_PLAYER_UPDATE_STATE"
    case Update => "VIDEO_PLAYER_UPDATE"
    case UpdateOptions => "VIDEO_PLAYER_UPDATE_OPTIONS"
    case ToggleBackground => "VIDEO_PLAYER_TOGGLE_BACKGROUND"
    case StreamInitialized => "VIDEO_PLAYER_STREAM_INITIALIZED"
    case Reset => "VIDEO_PLAYER_RESET"
    case PeriodSwitch => "VIDEO_PLAYER_PERIOD_SWITCH"
    case UpdateQualityIndex => "VIDEO_PLAYER_UPDATE_QUALITY_INDEX"
  }

  /** The constant a type string names, if any: how a store looks a handler up. */
  function Named(s: string): (t: Option<ActionType>)
    ensures t.Some? ==> Name(t.value) == s
  {
    if s == "VIDEO_PLAYER_PLAY" then Some(Play)
    else if s == "VIDEO_PLAYER_STOP" then Some(Stop)
    else if s == "VIDEO_PLAYER_UPDATE_STATE" then Some(UpdateState)
    else if s == "VIDEO_PLAYER_UPDATE" then Some(Update)
    else if s == "VIDEO_PLAYER_UPDATE_OPTIONS" then Some(UpdateOptions)
    else if s == "VIDEO_PLAYER_TOGGLE_BACKGROUND" then Some(ToggleBackground)
    else if s == "VIDEO_PLAYER_STREAM_INITIALIZED" then Some(StreamInitialized)
    else if s == "VIDEO_PLAYER_RESET" then Some(Reset)
    else if s == "VIDEO_PLAYER_PERIOD_SWITCH" then Some(PeriodSwitch)
    else if s == "VIDEO_PLAYER_UPDATE_QUALITY_INDEX" then Some(UpdateQualityIndex)
    else None
  }

  /** The strings are pairwise distinct, so every constant is found again under its own name. */
  lemma NamedName(t: ActionType)
    ensures Named(Name(t)) == Some(t)
  {
    assert "VIDEO_PLAYER_UPDATE" != "VIDEO_PLAYER_UPDATE_STATE";
    assert "VIDEO_PLAYER_UPDATE" != "VIDEO_PLAYER_UPDATE_OPTIONS";
    assert "VIDEO_PLAYER_UPDATE" != "VIDEO_PLAYER_UPDATE_QUALITY_INDEX";
  }

  /** `Named` and `Name` are inverse: two constants never share a string. */
  lemma NameInjective(t: ActionType, u: ActionType)
    ensures Name(t) == Name(u) <==> t == u
  {
    NamedName(t);
    NamedName(u);
  }

  /** The dash.js stream description; the store reads only its period index. */
  datatype StreamInfo = StreamInfo(index: int)

  /** An entry of dash.js's bitrate list for the video track. */
  datatype BitrateInfo = BitrateInfo(qualityIndex: int, bitrate: real)

  /**
   * The store's `bitrate` field: `Unset` for JavaScript's `null` and
   * `undefined`, `NotANumber` for `NaN`, else a whole number of kilobits per second.
   */
  datatype Bitrate = Unset | NotANumber | Kbps(kbps: int)

  /**
   * What the stores ask a dash.js player: whether it is ready, whether the
   * video metrics and dash metrics exist, whether a representation switch is
   * recorded and the bandwidth (bits per second) of the representation it
   * switched to in the current period, the bitrate list, the volume, the
   * duration and the buffer length.
   */
  datatype DashPlayer = DashPlayer(
    isReady: bool,
    hasMetrics: bool,
    representationSwitch: bool,
    bandwidth: real,
    bitrateList: seq<BitrateInfo>,
    volume: real,
    duration: real,
    bufferLength: real)

  /** The `VideoPlayerOptions` record. */
  datatype PlayerOptions = PlayerOptions(keyboardShortcuts: bool)

  /** One key of an `updateOptions` body. */
  datatype OptionSetting = SetKeyboardShortcuts(on: bool)

  /** One key of an `update` body, named after the state field it sets. */
  datatype Setting =
    | SetIsPlaying(isPlaying: bool)
    | SetIsScrubbing(isScrubbing: bool)
    | SetIsMuted(isMuted: bool)
    | SetIsAutoPlay(isAutoPlay: bool)
    | SetIsEnded(isEnded: bool)
    | SetIsLooping(isLooping: bool)
    | SetCanPlay(canPlay: bool)
    | SetCurrentSrc(currentSrc: Option<string>)
    | SetError(error: Option<string>)
    | SetNetworkState(networkState: int)
    | SetReadyState(readyState: int)
    | SetPlaybackRate(playbackRate: real)
    | SetVideoWidth(videoWidth: real)
    | SetVideoHeight(videoHeight: real)
    | SetVolume(volume: real)
    | SetAspectRatio(aspectRatio: Option<real>)
    | SetFrameRate(frameRate: real)
    | SetOptions(options: PlayerOptions)
    | SetBitrates(bitrates: Option<seq<BitrateInfo>>)
    | SetBitrate(bitrate: Bitrate)
    | SetStreamInitialized(streamInitialized: bool)
    | SetQualityIndex(qualityIndex: Option<int>)
    | SetStreamInfo(streamInfo: Option<StreamInfo>)

  /** The types the player store's `ActionMap` has a handler for. */
  predicate HasHandler(t: ActionType) {
    !(t.Play? || t.Stop? || t.ToggleBackground?)
  }

  /** A type string that names no constant, or one without a handler. */
  type OtherType = s: string | Named(s).None? || !HasHandler(Named(s).value) witness ""

  /**
   * A dispatched action. Each handled type carries its payload; `None` stands
   * for a payload that is `undefined` (or, for a body, not a non-null object).
   * `Unhandled` is an action whose type string no handler of either store
   * answers, `Untyped` one whose type is not a string.
   */
  datatype Action =
    | UpdateStateAction(video: Option<MediaElement>, dashPlayer: Option<DashPlayer>)
    | UpdateAction(body: Option<seq<Setting>>)
    | UpdateOptionsAction(optionsBody: Option<seq<OptionSetting>>)
    | StreamInitializedAction
    | ResetAction
    | PeriodSwitchAction(streamInfo: Option<StreamInfo>)
    | UpdateQualityIndexAction(bitrate: Option<BitrateInfo>)
    | Unhandled(actionType: OtherType)
    | Untyped

  /** The action's `type` field, when it is a string. */
  function TypeOf(a: Action): (t: Option<string>)
    ensures t.None? <==> a.Untyped?
    ensures !a.Unhandled? && !a.Untyped? ==> t.Some? && Named(t.value).Some? && HasHandler(Named(t.value).value)
    ensures a.Unhandled? ==> t.Some? && (Named(t.value).None? || !HasHandler(Named(t.value).value))
  {
    match a
    case UpdateStateAction(_, _) => NamedName(UpdateState); Some(Name(UpdateState))
    case UpdateAction(_) => NamedName(Update); Some(Name(Update))
    case UpdateOptionsAction(_) => NamedName(UpdateOptions); Some(Name(UpdateOptions))
    case StreamInitializedAction => NamedName(StreamInitialized); Some(Name(StreamInitialized))
    case ResetAction => NamedName(Reset); Some(Name(Reset))
    case PeriodSwitchAction(_) => NamedName(PeriodSwitch); Some(Name(PeriodSwitch))
    case UpdateQualityIndexAction(_) => NamedName(UpdateQualityIndex); Some(Name(UpdateQualityIndex))
    case Unhandled(s) => Some(s)
    case Untyped => None
  }
}
