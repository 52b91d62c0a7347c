/**
 * The command layer (src/data/VideoPlayerActions.js): an event emitter that
 * the video component listens to, plus helpers that schedule dispatches to
 * the stores. Commands read the two stores' current states, which the
 * methods here take as parameters.
 */
module VideoPlayerActions {
  import opened Wrappers
  import opened Numbers
  import opened VideoState
  import opened PlayerAction
  import PlaybackRateOptions
  import VideoPlayerStore
  import VideoPlayerTimeStore

  /** The events the emitter sends; all but `ResetSignal` are relayed by a same-named method. */
  datatype Signal =
    | Play | Pause | Mute | Unmute | PlaybackRate | Volume | Seek
    | SeekByPercent | SeekByMilliseconds | ToggleFullscreen | RetrieveManifest | ResetSignal

  /** The event name on the emitter. */
  function SignalName(s: Signal): string {
    match s
    case Play => "play"
    case Pause => "pause"
    case Mute => "mute"
    case Unmute => "unmute"
    case PlaybackRate => "playbackRate"
    case Volume => "volume"
    case Seek => "seek"
    case SeekByPercent => "seekByPercent"
    case SeekByMilliseconds => "seekByMilliseconds"
    case ToggleFullscreen => "toggleFullscreen"
    case RetrieveManifest => "retrieveManifest"
    case ResetSignal => "reset"
  }

  /** One `emit(name, ...args)`. */
  datatype Event = Event(signal: Signal, args: seq<real>)

  /** A registered `(type, fn)` pair; a listener function is known by an identity. */
  datatype Listener = Listener(eventType: string, fn: nat)

  /** The keyboard commands. */
  datatype Command =
    | TogglePlayKey | ToggleMuteKey | StepBackKey | StepForwardKey
    | IncreaseRateKey | DecreaseRateKey | ResetRateKey

  /** The `keyboardShortcuts` table: space, m, left, right, `>`, `<` and `/`. */
  function KeyCommand(keyCode: int): (c: Option<Command>)
    ensures c.Some? <==> keyCode in {32, 77, 37, 39, 190, 188, 191}
  {
    if keyCode == 32 then Some(TogglePlayKey)
    else if keyCode == 77 then Some(ToggleMuteKey)
    else if keyCode == 37 then Some(StepBackKey)
    else if keyCode == 39 then Some(StepForwardKey)
    else if keyCode == 190 then Some(IncreaseRateKey)
    else if keyCode == 188 then Some(DecreaseRateKey)
    else if keyCode == 191 then Some(ResetRateKey)
    else None
  }

  /** A `keydown` event: the key code and the modifier keys held. */
  datatype KeyEvent = KeyEvent(keyCode: int, ctrlKey: bool, shiftKey: bool, altKey: bool, metaKey: bool)

  /** Shortcuts are on and no modifier is held. */
  predicate ShortcutsApply(event: KeyEvent, player: VideoPlayerStore.PlayerState) {
    player.options.keyboardShortcuts
    && !event.ctrlKey && !event.shiftKey && !event.altKey && !event.metaKey
  }

  /** The rate `increasePlaybackRate` asks for: double, but never above the fastest option. */
  function IncreasedRate(rate: real): (r: real)
    ensures r <= PlaybackRateOptions.MaxRate()
    ensures r <= rate * 2.0
    ensures r == rate * 2.0 || r == PlaybackRateOptions.MaxRate()
  {
    Min(PlaybackRateOptions.MaxRate(), rate * 2.0)
  }

  /** The rate `decreasePlaybackRate` asks for: half, but never below the slowest option. */
  function DecreasedRate(rate: real): (r: real)
    ensures r >= PlaybackRateOptions.MinRate()
    ensures r >= rate / 2.0
    ensures r == rate / 2.0 || r == PlaybackRateOptions.MinRate()
  {
    Max(PlaybackRateOptions.MinRate(), rate / 2.0)
  }

  /** A rate within the table's bounds stays within them under either key. */
  lemma RatesStayInRange(rate: real)
    requires PlaybackRateOptions.MinRate() <= rate <= PlaybackRateOptions.MaxRate()
    ensures PlaybackRateOptions.MinRate() <= IncreasedRate(rate) <= PlaybackRateOptions.MaxRate()
    ensures PlaybackRateOptions.MinRate() <= DecreasedRate(rate) <= PlaybackRateOptions.MaxRate()
  {
  }

  /** Halving undoes doubling below the top, and doubling undoes halving above the bottom. */
  lemma RatesUndo(rate: real)
    ensures 0.125 <= rate <= 4.0 ==> DecreasedRate(IncreasedRate(rate)) == rate
    ensures 0.25 <= rate <= 8.0 ==> IncreasedRate(DecreasedRate(rate)) == rate
  {
    var lo := PlaybackRateOptions.MinRate();
    var hi := PlaybackRateOptions.MaxRate();
    if 0.125 <= rate <= 4.0 {
      var up := IncreasedRate(rate);
      assert up == Min(hi, rate * 2.0) == rate * 2.0;
      assert DecreasedRate(up) == Max(lo, up / 2.0) == rate;
    }
    if 0.25 <= rate <= 8.0 {
      var down := DecreasedRate(rate);
      assert down == Max(lo, rate / 2.0) == rate / 2.0;
      assert IncreasedRate(down) == Min(hi, down * 2.0) == rate;
    }
  }

  /** On the menu's rates, each key moves one option up or down, and sticks at the ends. */
  lemma RatesWalkTheTable(i: int)
    requires 0 <= i < 7
    ensures var t := PlaybackRateOptions.Options();
      IncreasedRate(t[i].value) == t[if i < 6 then i + 1 else 6].value
      && DecreasedRate(t[i].value) == t[if i > 0 then i - 1 else 0].value
  {
    PlaybackRateOptions.OptionsDouble();
  }

  /** From normal speed the three rate keys ask for 2, 0.5 and 1. */
  lemma RatesFromNormal()
    ensures IncreasedRate(1.0) == 2.0 && DecreasedRate(1.0) == 0.5
  {
  }

  /** The seek target of a step: the current time in milliseconds plus the step. */
  function StepTarget(currentTime: real, ms: real): (t: real)
    ensures t - currentTime * 1000.0 == ms
  {
    currentTime * 1000.0 + ms
  }

  /** The two commands that step by one frame, and so divide by the frame rate. */
  predicate Steps(cmd: Command) {
    cmd == StepBackKey || cmd == StepForwardKey
  }

  /**
   * The events a keyboard command emits: always one, with one argument
   * exactly for a seek (the steps) or a rate change (the three rate keys).
   */
  function CommandEvents(cmd: Command, player: VideoPlayerStore.PlayerState, clock: VideoPlayerTimeStore.TimeState)
    : (r: seq<Event>)
    requires Steps(cmd) ==> player.frameRate != 0.0
    ensures |r| == 1
    ensures r[0].signal == SeekByMilliseconds <==> Steps(cmd)
    ensures r[0].signal == PlaybackRate <==> cmd in {IncreaseRateKey, DecreaseRateKey, ResetRateKey}
    ensures r[0].args == [] <==> cmd in {TogglePlayKey, ToggleMuteKey}
  {
    match cmd
    case TogglePlayKey => [Event(if player.isPlaying then Pause else Signal.Play, [])]
    case ToggleMuteKey => [Event(if player.isMuted then Unmute else Mute, [])]
    case StepBackKey =>
      [Event(SeekByMilliseconds, [StepTarget(clock.currentTime, -VideoPlayerStore.FrameRateMilliseconds(player).value)])]
    case StepForwardKey =>
      [Event(SeekByMilliseconds, [StepTarget(clock.currentTime, VideoPlayerStore.FrameRateMilliseconds(player).value)])]
    case IncreaseRateKey => [Event(PlaybackRate, [IncreasedRate(player.playbackRate)])]
    case DecreaseRateKey => [Event(PlaybackRate, [DecreasedRate(player.playbackRate)])]
    case ResetRateKey => [Event(PlaybackRate, [1.0])]
  }

  /** A step lands exactly one frame from the current time, forward or back. */
  lemma StepIsOneFrame(player: VideoPlayerStore.PlayerState, clock: VideoPlayerTimeStore.TimeState)
    requires player.frameRate != 0.0
    ensures (CommandEvents(StepForwardKey, player, clock)[0].args[0] - clock.currentTime * 1000.0) * player.frameRate == 1000.0
    ensures (CommandEvents(StepBackKey, player, clock)[0].args[0] - clock.currentTime * 1000.0) * player.frameRate == -1000.0
  {
    var frame := VideoPlayerStore.FrameRateMilliseconds(player).value;
    assert frame * player.frameRate == 1000.0;
    Negate(frame, player.frameRate);
  }

  /** The body of the `update` the scrub helpers schedule. */
  function ScrubBody(scrubbing: bool): seq<Setting> {
    [SetIsScrubbing(scrubbing)]
  }

  /** A scrub session's two updates leave the store as before, with scrubbing off. */
  lemma ScrubUpdates(state: VideoPlayerStore.PlayerState)
    ensures var started := VideoPlayerStore.Reduce(state, UpdateAction(Some(ScrubBody(true))));
      started.Ok? && started.value.state.isScrubbing
      && var stopped := VideoPlayerStore.Reduce(started.value.state, UpdateAction(Some(ScrubBody(false))));
      stopped.Ok? && stopped.value.state == state.(isScrubbing := false)
  {
    VideoPlayerStore.ReduceHandled(state, UpdateAction(Some(ScrubBody(true))));
    var started := VideoPlayerStore.Merge(state, ScrubBody(true));
    VideoPlayerStore.ReduceHandled(started, UpdateAction(Some(ScrubBody(false))));
  }

  /** `removeListener`: takes out the most recently added matching pair, if any. */
  function RemoveLast(listeners: seq<Listener>, l: Listener): (r: seq<Listener>)
    ensures l !in listeners ==> r == listeners
    ensures l in listeners ==> |r| == |listeners| - 1 && multiset(r) == multiset(listeners) - multiset{l}
    ensures l in listeners ==> RemovedAtLast(listeners, l, r)
    decreases |listeners|
  {
    if listeners == [] then []
    else
      var last := listeners[|listeners| - 1];
      var init := listeners[..|listeners| - 1];
      assert listeners == init + [last];
      if last == l then
        assert listeners[..|listeners| - 1] + listeners[|listeners|..] == init;
        init
      else
        var rest := RemoveLast(init, l);
        if l in init then RemovedAtLastExtends(init, last, l, rest); rest + [last]
        else rest + [last]
  }

  /** `r` is `listeners` without the copy of `l` at some index, no later copy following it. */
  ghost predicate RemovedAtLast(listeners: seq<Listener>, l: Listener, r: seq<Listener>) {
    exists i | 0 <= i < |listeners| ::
      listeners[i] == l && l !in listeners[i + 1..] && r == listeners[..i] + listeners[i + 1..]
  }

  /** A removal from a prefix stays a removal of the last copy once a different listener follows. */
  lemma RemovedAtLastExtends(init: seq<Listener>, last: Listener, l: Listener, rest: seq<Listener>)
    requires last != l && RemovedAtLast(init, l, rest)
    ensures RemovedAtLast(init + [last], l, rest + [last])
  {
    var i :| 0 <= i < |init| && init[i] == l && l !in init[i + 1..] && rest == init[..i] + init[i + 1..];
    var all := init + [last];
    assert all[i] == l;
    assert all[..i] == init[..i];
    assert all[i + 1..] == init[i + 1..] + [last];
  }

  /** Removing what was just added restores the registry. */
  lemma RemoveLastAdded(listeners: seq<Listener>, l: Listener)
    ensures RemoveLast(listeners + [l], l) == listeners
  {
    assert (listeners + [l])[..|listeners|] == listeners;
  }

  /** The `VideoPlayerActions` emitter. */
  class Actions {
    /** Events emitted, in order. */
    var emitted: seq<Event>
    /** Dispatches scheduled with `setTimeout(…, 0)`, in the order they will run. */
    var queued: seq<Action>
    /** The registered change listeners, oldest first. */
    var listeners: seq<Listener>

    constructor()
      ensures emitted == [] && queued == [] && listeners == []
    {
      emitted := [];
      queued := [];
      listeners := [];
    }

    /**
     * One of the relayed methods (`play`, `pause`, … `retrieveManifest`): it
     * emits its own name with the arguments unchecked. The instance's
     * `seekByPercent` is such a relay, so the prototype's 0..1 check never runs.
     */
    method Relay(signal: Signal, args: seq<real>)
      requires signal != ResetSignal
      modifies this
      ensures emitted == old(emitted) + [Event(signal, args)]
      ensures queued == old(queued) && listeners == old(listeners)
    {
      emitted := emitted + [Event(signal, args)];
    }

    /** `addChangeListener`: registers the pair and returns the token its `remove` uses. */
    method AddChangeListener(eventType: string, fn: nat) returns (token: Listener)
      modifies this
      ensures token == Listener(eventType, fn)
      ensures listeners == old(listeners) + [token]
      ensures emitted == old(emitted) && queued == old(queued)
    {
      token := Listener(eventType, fn);
      listeners := listeners + [token];
    }

    /** The token's `remove()`: `removeListener(type, fn)`. */
    method Remove(token: Listener)
      modifies this
      ensures listeners == RemoveLast(old(listeners), token)
      ensures emitted == old(emitted) && queued == old(queued)
    {
      listeners := RemoveLast(listeners, token);
    }

    /** `setVolume`: a volume outside [0, 1] throws; a muted player is unmuted first when the volume is positive. */
    method SetVolume(volume: real, player: VideoPlayerStore.PlayerState) returns (ok: bool)
      modifies this
      ensures ok <==> 0.0 <= volume <= 1.0
      ensures ok ==> (emitted == old(emitted)
        + (if player.isMuted && volume > 0.0 then [Event(Unmute, [])] else []) + [Event(Volume, [volume])])
      ensures !ok ==> emitted == old(emitted)
      ensures queued == old(queued) && listeners == old(listeners)
    {
      if !(0.0 <= volume <= 1.0) {
        return false;
      }
      if player.isMuted && volume > 0.0 {
        Relay(Unmute, []);
      }
      Relay(Volume, [volume]);
      ok := true;
    }

    method IncreasePlaybackRate(player: VideoPlayerStore.PlayerState)
      modifies this
      ensures emitted == old(emitted) + [Event(PlaybackRate, [IncreasedRate(player.playbackRate)])]
      ensures queued == old(queued) && listeners == old(listeners)
    {
      Relay(PlaybackRate, [IncreasedRate(player.playbackRate)]);
    }

    method DecreasePlaybackRate(player: VideoPlayerStore.PlayerState)
      modifies this
      ensures emitted == old(emitted) + [Event(PlaybackRate, [DecreasedRate(player.playbackRate)])]
      ensures queued == old(queued) && listeners == old(listeners)
    {
      Relay(PlaybackRate, [DecreasedRate(player.playbackRate)]);
    }

    method ResetPlaybackRate()
      modifies this
      ensures emitted == old(emitted) + [Event(PlaybackRate, [1.0])]
      ensures queued == old(queued) && listeners == old(listeners)
    {
      Relay(PlaybackRate, [1.0]);
    }

    /** `step(ms)`: seek to the current time plus `ms` milliseconds. */
    method Step(ms: real, clock: VideoPlayerTimeStore.TimeState)
      modifies this
      ensures emitted == old(emitted) + [Event(SeekByMilliseconds, [StepTarget(clock.currentTime, ms)])]
      ensures queued == old(queued) && listeners == old(listeners)
    {
      Relay(SeekByMilliseconds, [StepTarget(clock.currentTime, ms)]);
    }

    method StepBack(player: VideoPlayerStore.PlayerState, clock: VideoPlayerTimeStore.TimeState)
      requires player.frameRate != 0.0
      modifies this
      ensures emitted == old(emitted) + CommandEvents(StepBackKey, player, clock)
      ensures queued == old(queued) && listeners == old(listeners)
    {
      Step(-VideoPlayerStore.FrameRateMilliseconds(player).value, clock);
    }

    method StepForward(player: VideoPlayerStore.PlayerState, clock: VideoPlayerTimeStore.TimeState)
      requires player.frameRate != 0.0
      modifies this
      ensures emitted == old(emitted) + CommandEvents(StepForwardKey, player, clock)
      ensures queued == old(queued) && listeners == old(listeners)
    {
      Step(VideoPlayerStore.FrameRateMilliseconds(player).value, clock);
    }

    /** `togglePlay`: pause a playing player, play any other. */
    method TogglePlay(player: VideoPlayerStore.PlayerState)
      modifies this
      ensures emitted == old(emitted) + [Event(if player.isPlaying then Pause else Signal.Play, [])]
      ensures queued == old(queued) && listeners == old(listeners)
    {
      if player.isPlaying {
        Relay(Pause, []);
      } else {
        Relay(Signal.Play, []);
      }
    }

    /** `toggleMute`: unmute a muted player, mute any other. */
    method ToggleMute(player: VideoPlayerStore.PlayerState)
      modifies this
      ensures emitted == old(emitted) + [Event(if player.isMuted then Unmute else Mute, [])]
      ensures queued == old(queued) && listeners == old(listeners)
    {
      if player.isMuted {
        Relay(Unmute, []);
      } else {
        Relay(Mute, []);
      }
    }

    /** Runs the command a shortcut key is bound to. */
    method RunCommand(cmd: Command, player: VideoPlayerStore.PlayerState, clock: VideoPlayerTimeStore.TimeState)
      requires Steps(cmd) ==> player.frameRate != 0.0
      modifies this
      ensures emitted == old(emitted) + CommandEvents(cmd, player, clock)
      ensures queued == old(queued) && listeners == old(listeners)
    {
      match cmd
      case TogglePlayKey => TogglePlay(player);
      case ToggleMuteKey => ToggleMute(player);
      case StepBackKey => StepBack(player, clock);
      case StepForwardKey => StepForward(player, clock);
      case IncreaseRateKey => IncreasePlaybackRate(player);
      case DecreaseRateKey => DecreasePlaybackRate(player);
      case ResetRateKey => ResetPlaybackRate();
    }

    /**
     * `handleKeyDown`: with shortcuts on and no modifier held, a bound key has
     * its default prevented and runs its command; anything else is left alone.
     */
    method HandleKeyDown(event: KeyEvent, player: VideoPlayerStore.PlayerState, clock: VideoPlayerTimeStore.TimeState)
      returns (preventDefault: bool)
      requires ShortcutsApply(event, player) && KeyCommand(event.keyCode).Some? && Steps(KeyCommand(event.keyCode).value)
        ==> player.frameRate != 0.0
      modifies this
      ensures preventDefault <==> ShortcutsApply(event, player) && KeyCommand(event.keyCode).Some?
      ensures preventDefault ==> emitted == old(emitted) + CommandEvents(KeyCommand(event.keyCode).value, player, clock)
      ensures !preventDefault ==> emitted == old(emitted)
      ensures queued == old(queued) && listeners == old(listeners)
    {
      preventDefault := false;
      if !ShortcutsApply(event, player) {
        return;
      }
      var cmd := KeyCommand(event.keyCode);
      if cmd.Some? {
        preventDefault := true;
        RunCommand(cmd.value, player, clock);
      }
    }

    /** `updateState(video)`: schedules an `updateState` dispatch. */
    method UpdateState(video: MediaElement)
      modifies this
      ensures queued == old(queued) + [UpdateStateAction(Some(video), None)]
      ensures emitted == old(emitted) && listeners == old(listeners)
    {
      queued := queued + [UpdateStateAction(Some(video), None)];
    }

    /** `update(body)`: schedules an `update` dispatch. */
    method Update(body: Option<seq<Setting>>)
      modifies this
      ensures queued == old(queued) + [UpdateAction(body)]
      ensures emitted == old(emitted) && listeners == old(listeners)
    {
      queued := queued + [UpdateAction(body)];
    }

    /** `updateOptions(body)`: schedules an `updateOptions` dispatch. */
    method UpdateOptions(body: Option<seq<OptionSetting>>)
      modifies this
      ensures queued == old(queued) + [UpdateOptionsAction(body)]
      ensures emitted == old(emitted) && listeners == old(listeners)
    {
      queued := queued + [UpdateOptionsAction(body)];
    }

    /** `updateDashState(video, dashPlayer)`: an `updateState` dispatch that carries the dash player. */
    method UpdateDashState(video: MediaElement, dash: DashPlayer)
      modifies this
      ensures queued == old(queued) + [UpdateStateAction(Some(video), Some(dash))]
      ensures emitted == old(emitted) && listeners == old(listeners)
    {
      queued := queued + [UpdateStateAction(Some(video), Some(dash))];
    }

    method StreamInitialized()
      modifies this
      ensures queued == old(queued) + [StreamInitializedAction]
      ensures emitted == old(emitted) && listeners == old(listeners)
    {
      queued := queued + [StreamInitializedAction];
    }

    /** `reset`: emits `reset` at once and schedules the store reset. */
    method Reset()
      modifies this
      ensures emitted == old(emitted) + [Event(ResetSignal, [])]
      ensures queued == old(queued) + [ResetAction]
      ensures listeners == old(listeners)
    {
      emitted := emitted + [Event(ResetSignal, [])];
      queued := queued + [ResetAction];
    }

    /** `periodSwitch(event)`: schedules the switch to the event's `toStreamInfo`. */
    method PeriodSwitch(toStreamInfo: Option<StreamInfo>)
      modifies this
      ensures queued == old(queued) + [PeriodSwitchAction(toStreamInfo)]
      ensures emitted == old(emitted) && listeners == old(listeners)
    {
      queued := queued + [PeriodSwitchAction(toStreamInfo)];
    }

    method UpdateQualityIndex(bitrate: Option<BitrateInfo>)
      modifies this
      ensures queued == old(queued) + [UpdateQualityIndexAction(bitrate)]
      ensures emitted == old(emitted) && listeners == old(listeners)
    {
      queued := queued + [UpdateQualityIndexAction(bitrate)];
    }

    /** `scrubStart`: pause, then schedule `isScrubbing: true`. */
    method ScrubStart()
      modifies this
      ensures emitted == old(emitted) + [Event(Pause, [])]
      ensures queued == old(queued) + [UpdateAction(Some(ScrubBody(true)))]
      ensures listeners == old(listeners)
    {
      Relay(Pause, []);
      Update(Some(ScrubBody(true)));
    }

    /** `scrubStop({play})`: schedule `isScrubbing: false`, then play only if asked to. */
    method ScrubStop(play: bool)
      modifies this
      ensures queued == old(queued) + [UpdateAction(Some(ScrubBody(false)))]
      ensures emitted == old(emitted) + (if play then [Event(Signal.Play, [])] else [])
      ensures listeners == old(listeners)
    {
      Update(Some(ScrubBody(false)));
      if play {
        Relay(Signal.Play, []);
      }
    }
  }
}
