# ship-components-video, modelled in Dafny

This project models the core of `ship-components-video`, a React video player. The player is built around two Flux-style stores:

- `VideoPlayerStore` holds the player's state: flags, volume, rate, dash.js stream data and options.
- `VideoPlayerTimeStore` holds the clock: current time, duration, progress and buffered sections.

The rest of the core is:

- An action creator (`VideoPlayerActions`) turns user intent into events for the `<video>` component, or into dispatched actions for the stores. Its sources are key presses, rate buttons, scrubbing and stepping.
- `VideoTimeService` converts between seconds and `h:mm:ss:ff` timecodes, reads a start time from the page's query string, and formats a plain clock.
- `QueryString` parses and serialises query strings and cookies.
- `getVideoState` reads the play state and buffered ranges off a media element.
- The rate menu (`PlaybackRateOptions`) is a sorted table.
- The pointer logic of the `Slider` and the `ProgressBar`.
- The `Video` component's element commands and its letterboxed click mapping.

Immutable records become datatypes. Reducers become total functions returning `Result<Outcome, string>`; an `Outcome` pairs the new state with whether it changed. Objects that update their own fields become classes:

- the two stores;
- the action creator, which logs emitted events, queued dispatches and listeners;
- the slider, progress bar and video components.

A JavaScript `NaN` or `Infinity` is an `Option` that is `None`. `Math.round`, `Math.floor`, `Math.ceil`, `parseInt` and JavaScript's truncating `%` are written out in `numbers.dfy` and `text.dfy`.

Where the code and the repository's test tables disagree, the model follows the code:

- `getStartTime('1000')` pads the bare number to `00:00:00:1000` and reads it as 1000 frames: 33333.3 ms at the default 30 fps, not 1000.
- `1.5s` and `5m` fail the timecode check and give 0.

The lemmas `StartTimeBareNumber` and `StartTimeSuffixed` state the code's values.

## Model

| member | source | states |
|---|---|---|
| Numbers.Round | src/lib/VideoTimeService.js:30 | `Math.round` lands within half a unit of its argument |
| Numbers.JsRem | src/lib/VideoTimeService.js:123-126 | JavaScript's `%` is the remainder of division truncated toward zero: dividend = divisor × truncated quotient + remainder, the remainder is smaller than the divisor in size and takes the dividend's sign, and it is the mathematical remainder for a non-negative dividend |
| Numbers.Ratio | src/data/VideoPlayerStore.js:113 | a quotient exists exactly when the divisor is non-zero, and multiplied back by the divisor gives the dividend |
| Text.Trim | src/lib/QueryString.js:20-22 | the result is the string with exactly its leading and trailing white space removed: a contiguous slice, everything before and after it white space, and no white space at its own edges; a string without edge spaces is left as is |
| Text.Split | src/lib/QueryString.js:16 | splitting always yields at least one part |
| Text.JoinSplit | src/lib/VideoTimeService.js:113 | joining the parts of a split on the same separator restores the string |
| Text.SplitJoin | src/lib/VideoTimeService.js:98 | splitting a join of separator-free parts restores the parts |
| Text.ParseNumeral | src/lib/VideoTimeService.js:54-57 | `parseInt` of a string of digits is the number those digits denote |
| Text.NatToStringValue | src/lib/VideoTimeService.js:44 | a printed number reads back as itself |
| QueryString.KeyIndex | src/lib/QueryString.js:23-33 | the index found is the first entry with that key, or -1 when no entry has it |
| QueryString.Lookup | src/lib/VideoTimeService.js:67-69 | reading a key finds nothing exactly when no entry has that key |
| QueryString.AssignDistinct | src/lib/QueryString.js:23-33 | assigning a property keeps every key unique |
| QueryString.AssignLookup | src/lib/QueryString.js:23-33 | after an assignment the key reads the new value and every other key reads what it read before |
| QueryString.StripQuestionMark | src/lib/QueryString.js:8-10 | the result is a suffix of the input, one character shorter exactly when the input starts with `?`, and otherwise the input itself |
| QueryString.Coerce | src/lib/QueryString.js:23-33 | a text value is the trimmed text itself, and a flag is false exactly for `'false'` |
| QueryString.CoerceFlags | src/lib/QueryString.js:23-33 | exactly `''`, `'true'` and `'false'` become flags, and only `'false'` a false one |
| QueryString.QueryString2Map | src/lib/QueryString.js:7-37 | the loop builds exactly the parsed map: a leading `?` dropped, `'true'`/`'false'` coerced, later keys overriding earlier ones, and keys distinct |
| QueryString.AssignSegments | src/lib/QueryString.js:19-34 | the `forEach` assigns every segment's entry in order, ending with the map of all of them, keys distinct |
| QueryString.Cookie2Map | src/lib/QueryString.js:58-60 | a cookie string is read as a query string separated by `;` |
| QueryString.AssignAllLookup | src/lib/QueryString.js:19-34 | a key reads the value of its last segment, or is absent when no segment names it |
| QueryString.LastAssignmentWins | src/lib/QueryString.js:19-34 | both directions: a key holds v exactly when its last segment gives v, and it is absent exactly when no segment names it |
| QueryString.AssignAllDistinct | src/lib/QueryString.js:19-34 | segments with distinct keys are read back in order and unchanged |
| QueryString.AppendPair | src/lib/QueryString.js:51-54 | appending `pair&` to the joined prefix is the join of one more pair followed by `&` |
| QueryString.Map2QueryString | src/lib/QueryString.js:49-56 | the loop builds exactly the pairs joined by `&`, with no trailing `&` |
| QueryString.ValueTextReadsBack | src/lib/QueryString.js:23-33 | a printed value, trimmed and coerced, is the value again: `true`/`false` flags included |
| QueryString.PairTextReadsBack | src/lib/QueryString.js:20-22 | a printed pair has no `&` and parses back to the same entry |
| QueryString.SerializeRoundTrip | src/lib/QueryString.js:7-56 | parsing a serialised map with plain, distinct keys gives the map back |
| VideoState.KeyText | src/lib/getVideoState.js:34 | the section key text exists exactly when both endpoints are whole numbers |
| VideoState.KeyTextReadsBack | src/lib/getVideoState.js:34 | the key splits on `-` into the start and end numerals |
| VideoState.StartPercent | src/lib/getVideoState.js:39 | the start percent exists exactly when the duration is non-zero, and is the exact percent rounded down to a hundredth: a whole number of hundredths, at most the exact percent and less than 0.01 below it |
| VideoState.EndPercent | src/lib/getVideoState.js:44 | the end percent exists exactly when the duration is non-zero, and is the exact percent rounded up to a hundredth: a whole number of hundredths, at least the exact percent and less than 0.01 above it |
| VideoState.Section | src/lib/getVideoState.js:29-45 | the record is keyed by its range; its percents exist exactly when the duration is non-zero, the start rounded down and the end rounded up to a whole hundredth of the exact percents |
| VideoState.BufferedSections | src/lib/getVideoState.js:24-48 | one record per buffered range, the i-th being that range's section record |
| VideoState.GetBufferedSections | src/lib/getVideoState.js:24-48 | the loop over `buffered` produces exactly the sections above |
| VideoState.SectionOrdered | src/lib/getVideoState.js:39-44 | with a positive duration, a section starts no later than it ends |
| VideoState.OneSecondOfTen | src/lib/__tests__/getBufferedSections-test.js:8-20 | the first second of a ten-second video is keyed `0-1`, starts at 0 and ends at 10 percent |
| VideoState.IsPlayingRows | src/lib/__tests__/getIsPlaying-test.js:4-54 | the table's five rows: not playing at time 0, when paused, when ended, or at ready state 2; playing when advanced, unpaused, not ended and at ready state 4 |
| PlaybackRateOptions.Table | src/config/PlaybackRateOptions.js:1-23 | the literal menu has seven entries |
| PlaybackRateOptions.Compare | src/config/PlaybackRateOptions.js:24-31 | the comparator returns 0, 1 or -1 exactly as the first rate equals, exceeds or is below the second |
| PlaybackRateOptions.CompareConsistent | src/config/PlaybackRateOptions.js:24-31 | the comparator is antisymmetric and transitive, as a sort requires |
| PlaybackRateOptions.Insert | src/config/PlaybackRateOptions.js:24-31 | inserting into a sorted menu keeps it sorted and adds exactly that entry |
| PlaybackRateOptions.Sort | src/config/PlaybackRateOptions.js:24-31 | the sorted menu is ascending by rate and a permutation of the table |
| PlaybackRateOptions.SortOrdered | src/config/PlaybackRateOptions.js:24-31 | sorting an already ascending menu leaves it unchanged |
| PlaybackRateOptions.TableStrictlyAscending | src/config/PlaybackRateOptions.js:1-23 | the table as written already rises strictly |
| PlaybackRateOptions.Options | src/config/PlaybackRateOptions.js:1-31 | the exported menu has seven strictly rising rates |
| PlaybackRateOptions.OptionsAreSorted | src/config/PlaybackRateOptions.js:1-31 | the exported menu is the sort of the table |
| PlaybackRateOptions.OptionsDouble | src/config/PlaybackRateOptions.js:1-23 | the menu runs from `1/8` to `8`, each rate double the one before |
| PlaybackRateOptions.OptionsBounds | src/config/PlaybackRateOptions.js:24-31 | the first and last entries bound every rate of the menu |
| PlaybackRateOptions.MinRate | src/data/VideoPlayerActions.js:142 | the slowest rate is 1/8 |
| PlaybackRateOptions.MaxRate | src/data/VideoPlayerActions.js:134 | the fastest rate is 8 |
| PlayerAction.Named | src/data/VideoPlayerConstants.js:4-15 | a recognised type string names the action type it was read as |
| PlayerAction.NamedName | src/data/VideoPlayerConstants.js:4-15 | every action type's string is recognised as that type |
| PlayerAction.NameInjective | src/data/VideoPlayerConstants.js:4-15 | distinct action types have distinct strings, in both directions |
| PlayerAction.TypeOf | src/data/VideoPlayerStore.js:243-247 | an action lacks a type string exactly when it is untyped, and every handled action carries a recognised one |
| VideoPlayerStore.InitialState | src/data/VideoPlayerStore.js:49-75 | the defaults: not playing, scrubbing or playable, rate and volume 1, 30 fps, aspect 16:9, shortcuts off, no stream data |
| VideoPlayerStore.MergeAppend | src/data/VideoPlayerStore.js:126-133 | merging two bodies in turn is merging their concatenation |
| VideoPlayerStore.MergeSameScrubbing | src/data/VideoPlayerStore.js:126-133 | merging the scrubbing flag it already has leaves the state equal |
| VideoPlayerStore.MergeOptions | src/data/VideoPlayerStore.js:138-146 | an empty body leaves the options; otherwise the last setting of the shortcut flag wins |
| VideoPlayerStore.GetDashStates | src/data/VideoPlayerStore.js:15-35 | dash data exists exactly when the player is ready; it carries the player's volume, its bitrate list exactly when the stream is initialised, and a current bitrate exactly when metrics and a stream exist: `NaN` when no switch is recorded, else the switch's bandwidth in kbps rounded to the nearest whole number |
| VideoPlayerStore.UpdateStateHandler | src/data/VideoPlayerStore.js:84-121 | an element update succeeds exactly when the action carries an element |
| VideoPlayerStore.ResetHandler | src/data/VideoPlayerStore.js:152-157 | a reset returns every field to its default except the options, which are kept |
| VideoPlayerStore.Handle | src/data/VideoPlayerStore.js:80-168 | an action finds no handler exactly when it is untyped or its type string names none of the store's handlers, and only the element, `update` and `updateOptions` handlers can fail |
| VideoPlayerStore.Reduce | src/data/VideoPlayerStore.js:242-256 | an untyped action is an error, one whose type string names no handler changes nothing, and the change flag is true exactly when the state differs |
| VideoPlayerStore.ReduceHandled | src/data/VideoPlayerStore.js:247-252 | a handled action's successful result becomes the new state |
| VideoPlayerStore.UpdateStateCopies | src/data/VideoPlayerStore.js:97-114 | the element's mute, autoplay, ended and loop flags, source, error, states and size are copied |
| VideoPlayerStore.UpdateStateDerives | src/data/VideoPlayerStore.js:98-113 | playing is the element's play state, playable means a ready state of at least 3, and the aspect ratio times the height is the width, absent for a zero height |
| VideoPlayerStore.UpdateStateKeeps | src/data/VideoPlayerStore.js:97-120 | scrubbing, frame rate, options, quality index and stream fields are left as they were |
| VideoPlayerStore.PlaybackRateKept | src/data/VideoPlayerStore.js:104 | a reported rate of 0 keeps the stored rate; any other is taken |
| VideoPlayerStore.UpdateStateWithoutDash | src/data/VideoPlayerStore.js:97-120 | without a ready dash player the volume is the element's and the bitrate fields stay |
| VideoPlayerStore.UpdateStateWithDash | src/data/VideoPlayerStore.js:116-120 | a ready dash player supplies the volume, bitrate list and current bitrate |
| VideoPlayerStore.PlayingNeedsCanPlay | src/data/VideoPlayerStore.js:98-109 | after an element update the player is playing only if it can play |
| VideoPlayerStore.UpdateStateNeedsVideo | src/data/VideoPlayerStore.js:92-95 | an element update without an element is an error |
| VideoPlayerStore.UpdateMerges | src/data/VideoPlayerStore.js:126-133 | `update` succeeds exactly when it has a body, and then merges it |
| VideoPlayerStore.UpdateOptionsOnly | src/data/VideoPlayerStore.js:138-146 | `updateOptions` changes the options and nothing else |
| VideoPlayerStore.ResetKeepsOptions | src/data/VideoPlayerStore.js:152-157 | `reset` yields the defaults with the current options |
| VideoPlayerStore.StreamInitializedSets | src/data/VideoPlayerStore.js:148-150 | `streamInitialized` sets that flag and nothing else |
| VideoPlayerStore.PeriodSwitchSets | src/data/VideoPlayerStore.js:159-161 | `periodSwitch` records the new stream description and nothing else |
| VideoPlayerStore.QualityIndexSets | src/data/VideoPlayerStore.js:163-168 | `updateQualityIndex` records the chosen quality index, or clears it when there is none, and changes nothing else |
| VideoPlayerStore.StreamInitializedTwice | src/data/VideoPlayerStore.js:148-150 | a second `streamInitialized` is reported as no change |
| VideoPlayerStore.FrameRateMilliseconds | src/data/VideoPlayerStore.js:233-235 | one frame lasts 1000/frameRate ms, and is undefined for a zero frame rate |
| VideoPlayerStore.DefaultFrameMilliseconds | src/data/VideoPlayerStore.js:233-235 | at the default 30 fps a frame is 1000/30 ms |
| VideoPlayerStore.Store.constructor | src/data/VideoPlayerStore.js:175-177 | a new store holds the initial state |
| VideoPlayerStore.Store.Dispatch | src/data/VideoPlayerStore.js:242-256 | a dispatch replaces the state with the reducer's result and reports whether it changed; on error the state is untouched |
| VideoPlayerStore.Store.FrameMilliseconds | src/data/VideoPlayerStore.js:233-235 | a frame length exists exactly when the frame rate is non-zero, and times the frame rate it is 1000 ms |
| VideoPlayerTimeStore.InitialState | src/data/VideoPlayerTimeStore.js:26-33 | the clock starts at 0 with no buffered sections |
| VideoPlayerTimeStore.Percent | src/data/VideoPlayerTimeStore.js:59 | progress times the duration is 100 times the position; none for a zero duration |
| VideoPlayerTimeStore.BufferedPercent | src/data/VideoPlayerTimeStore.js:60 | an element with nothing buffered reports 0; otherwise the end of the last range as a percent |
| VideoPlayerTimeStore.UpdateStateHandler | src/data/VideoPlayerTimeStore.js:45-74 | an element update succeeds exactly when the action carries an element |
| VideoPlayerTimeStore.Reduce | src/data/VideoPlayerTimeStore.js:105-119 | an untyped action is an error, every action but `updateState` (including any type string without a handler) changes nothing, and the change flag is true exactly when the state differs |
| VideoPlayerTimeStore.UpdateStateFields | src/data/VideoPlayerTimeStore.js:56-62 | time, progress, buffered percent and sections come from the element |
| VideoPlayerTimeStore.UpdateStateDuration | src/data/VideoPlayerTimeStore.js:56-73 | duration and buffer length come from a ready dash player, else the element's duration and the old buffer length |
| VideoPlayerTimeStore.UpdateStateNeedsVideo | src/data/VideoPlayerTimeStore.js:51-54 | an element update without an element is an error |
| VideoPlayerTimeStore.ProgressHalfway | src/data/__tests__/VideoPlayerTimeStore-test.js:43-51 | 5 s into a 10 s video the progress is 50 |
| VideoPlayerTimeStore.Store.constructor | src/data/VideoPlayerTimeStore.js:81-83 | a new store holds the initial clock |
| VideoPlayerTimeStore.Store.Dispatch | src/data/VideoPlayerTimeStore.js:105-119 | a dispatch replaces the clock with the reducer's result; on error it is untouched |
| VideoPlayerActions.KeyCommand | src/data/VideoPlayerActions.js:58-73 | a key has a shortcut exactly when its code is 32 (space), 77 (M), 37 or 39 (left or right arrow), 190 (`.`/`>`), 188 (`,`/`<`) or 191 (`/`) |
| VideoPlayerActions.CommandEvents | src/data/VideoPlayerActions.js:58-73 | every shortcut emits one event: a seek exactly for the arrow keys, a rate change exactly for the three rate keys, and no arguments exactly for play and mute |
| VideoPlayerActions.IncreasedRate | src/data/VideoPlayerActions.js:133-136 | the faster rate is the smaller of double the current one and the menu's fastest |
| VideoPlayerActions.DecreasedRate | src/data/VideoPlayerActions.js:141-144 | the slower rate is the larger of half the current one and the menu's slowest |
| VideoPlayerActions.RatesStayInRange | src/data/VideoPlayerActions.js:133-144 | from a rate on the menu's range, faster and slower stay in it |
| VideoPlayerActions.RatesUndo | src/data/VideoPlayerActions.js:133-144 | slower undoes faster below the cap, and faster undoes slower above the floor |
| VideoPlayerActions.RatesWalkTheTable | src/data/VideoPlayerActions.js:133-144 | faster and slower move one entry up and down the menu, stopping at its ends |
| VideoPlayerActions.RatesFromNormal | src/data/VideoPlayerActions.js:133-151 | from normal speed, faster is 2 and slower is 0.5 |
| VideoPlayerActions.StepTarget | src/data/VideoPlayerActions.js:157-164 | the seek target is the current time in ms moved by the step |
| VideoPlayerActions.StepIsOneFrame | src/data/VideoPlayerActions.js:169-178 | the right and left arrow keys (39 and 37) seek exactly one frame forward and back |
| VideoPlayerActions.ScrubUpdates | src/data/VideoPlayerActions.js:314-335 | a scrub start sets the store's scrubbing flag, and the stop that follows leaves the store as before with the flag off |
| VideoPlayerActions.RemoveLast | src/data/VideoPlayerActions.js:106-113 | removing a listener takes out its most recently added copy and keeps every other listener in order, or changes nothing when it is not registered |
| VideoPlayerActions.RemoveLastAdded | src/data/VideoPlayerActions.js:106-113 | removing the listener just added restores the list |
| VideoPlayerActions.Actions.constructor | src/data/VideoPlayerActions.js:18-41 | a new action creator has emitted, queued and registered nothing |
| VideoPlayerActions.Actions.Relay | src/data/VideoPlayerActions.js:23-41 | a relayed command emits exactly its event with its arguments |
| VideoPlayerActions.Actions.AddChangeListener | src/data/VideoPlayerActions.js:106-113 | the listener is registered and its removal token returned |
| VideoPlayerActions.Actions.Remove | src/data/VideoPlayerActions.js:109-111 | the token's removal takes the listener out |
| VideoPlayerActions.Actions.SetVolume | src/data/VideoPlayerActions.js:119-128 | a volume is applied exactly when it lies in [0, 1], unmuting first when muted and raised above 0 |
| VideoPlayerActions.Actions.IncreasePlaybackRate | src/data/VideoPlayerActions.js:133-136 | emits a rate change to the faster rate |
| VideoPlayerActions.Actions.DecreasePlaybackRate | src/data/VideoPlayerActions.js:141-144 | emits a rate change to the slower rate |
| VideoPlayerActions.Actions.ResetPlaybackRate | src/data/VideoPlayerActions.js:149-151 | emits a rate change to 1 |
| VideoPlayerActions.Actions.Step | src/data/VideoPlayerActions.js:157-164 | emits a seek to the current time moved by the step |
| VideoPlayerActions.Actions.StepBack | src/data/VideoPlayerActions.js:169-171 | emits a seek one frame back |
| VideoPlayerActions.Actions.StepForward | src/data/VideoPlayerActions.js:176-178 | emits a seek one frame forward |
| VideoPlayerActions.Actions.TogglePlay | src/data/VideoPlayerActions.js:183-189 | pauses a playing player and plays a paused one |
| VideoPlayerActions.Actions.ToggleMute | src/data/VideoPlayerActions.js:194-200 | unmutes a muted player and mutes an unmuted one |
| VideoPlayerActions.Actions.RunCommand | src/data/VideoPlayerActions.js:58-73 | a shortcut emits exactly its command's events |
| VideoPlayerActions.Actions.HandleKeyDown | src/data/VideoPlayerActions.js:84-98 | a key is consumed exactly when shortcuts are on, no ctrl, shift, alt or meta modifier is held and the key is bound; only then are its events emitted |
| VideoPlayerActions.Actions.UpdateState | src/data/VideoPlayerActions.js:218-225 | queues an element update |
| VideoPlayerActions.Actions.Update | src/data/VideoPlayerActions.js:231-238 | queues an `update` with its body |
| VideoPlayerActions.Actions.UpdateOptions | src/data/VideoPlayerActions.js:244-251 | queues an options update with its body |
| VideoPlayerActions.Actions.UpdateDashState | src/data/VideoPlayerActions.js:257-265 | queues an element update carrying the dash player |
| VideoPlayerActions.Actions.StreamInitialized | src/data/VideoPlayerActions.js:272-278 | queues `streamInitialized` |
| VideoPlayerActions.Actions.Reset | src/data/VideoPlayerActions.js:284-291 | emits the reset event and queues the store reset |
| VideoPlayerActions.Actions.PeriodSwitch | src/data/VideoPlayerActions.js:293-300 | queues the period switch with the new stream description |
| VideoPlayerActions.Actions.UpdateQualityIndex | src/data/VideoPlayerActions.js:302-309 | queues the quality change with the chosen bitrate |
| VideoPlayerActions.Actions.ScrubStart | src/data/VideoPlayerActions.js:314-321 | pauses and queues scrubbing on |
| VideoPlayerActions.Actions.ScrubStop | src/data/VideoPlayerActions.js:327-335 | queues scrubbing off and plays again only when asked to |
| VideoTimeService.ShowsNegativeThreshold | src/lib/VideoTimeService.js:23 | a time prints as negative exactly when it is at most -0.0005 s |
| VideoTimeService.Seconds2String | src/lib/VideoTimeService.js:16-19 | a timecode is printed exactly when the time is a number |
| VideoTimeService.NegativeForm | src/lib/VideoTimeService.js:23-44 | a negative time prints as its magnitude's timecode in parentheses after a minus sign |
| VideoTimeService.Decompose | src/lib/VideoTimeService.js:27-29 | hours, minutes and seconds recompose the whole seconds |
| VideoTimeService.FieldBounds | src/lib/VideoTimeService.js:25-38 | frames stay below the rounded frame rate, seconds and minutes reach at most 60, and minutes reach 60 only with seconds at 60 |
| VideoTimeService.FormatParts | src/lib/VideoTimeService.js:40-44 | the printed timecode splits on `:` into hours and the three padded fields |
| VideoTimeService.Pad2Value | src/lib/VideoTimeService.js:40-42 | a padded field is a numeral that reads back as its value |
| VideoTimeService.String2Seconds | src/lib/VideoTimeService.js:52-58 | a time in seconds exists exactly when the frame rate is non-zero; a zero rate divides into `NaN` or an infinity |
| VideoTimeService.ReadsTimecode | src/lib/VideoTimeService.js:52-58 | text whose `:`-fields read as a timecode gives that timecode's hours, minutes and seconds plus frames over the rate |
| VideoTimeService.FormatReadsBack | src/lib/VideoTimeService.js:52-58 | reading a printed timecode gives the seconds its fields denote |
| VideoTimeService.LastFrame | src/lib/VideoTimeService.js:30-31 | frames round up to a whole second only in the last half frame before it |
| VideoTimeService.NoCarryFields | src/lib/VideoTimeService.js:25-30 | without a carry the fields are the split whole seconds and the rounded frames |
| VideoTimeService.NoCarryValue | src/lib/VideoTimeService.js:25-38 | without a carry the timecode is within one frame of the time |
| VideoTimeService.CarryValue | src/lib/VideoTimeService.js:31-38 | with a carry the timecode is the next second, or 61 s later when the seconds were 59 |
| VideoTimeService.FieldsValue | src/lib/VideoTimeService.js:24-38 | the timecode is within a frame of the time, except a carry on second 59, which overshoots by 60 s |
| VideoTimeService.RoundTrip | src/lib/VideoTimeService.js:16-59 | reading back a printed non-negative time is within a frame of it, except the 60 s overshoot |
| VideoTimeService.CarriedFieldsBounds | src/lib/VideoTimeService.js:30-38 | corrected carry: frames, seconds and minutes all stay in range |
| VideoTimeService.CarriedNextSecond | src/lib/VideoTimeService.js:30-38 | corrected carry: a rounded-up frame count denotes the next whole second |
| VideoTimeService.CarriedValue | src/lib/VideoTimeService.js:30-38 | corrected carry: the timecode is always within one frame of the time |
| VideoTimeService.CarriedRoundTrip | src/lib/VideoTimeService.js:16-59 | corrected carry: printing and reading back is always within one frame |
| VideoTimeService.CarriedSecond59 | src/lib/VideoTimeService.js:30-38 | corrected carry: 59.999 s at 30 fps is 0:01:00:00 |
| VideoTimeService.CarryOnSecond59 | src/lib/VideoTimeService.js:30-38 | as written, 59.999 s at 30 fps prints `0:01:60:00`, which reads back as 120 s |
| VideoTimeService.MinutesNeverCarry | src/lib/VideoTimeService.js:27-37 | as written, 3599.999 s prints `0:60:60:00`: minutes are not carried into hours |
| VideoTimeService.FourteenSecondsOneFrame | src/lib/__tests__/VideoTimeService-test.js:47-83 | 14.03 s at 30 fps prints `0:00:14:01` |
| VideoTimeService.FourteenSecondsOneFrameAt60 | src/lib/__tests__/VideoTimeService-test.js:47-83 | 14.016 s at 60 fps prints `0:00:14:01` |
| VideoTimeService.MinuteAndAHalf | src/lib/__tests__/VideoTimeService-test.js:47-83 | 90.5 s prints `0:01:30:15` |
| VideoTimeService.ThirtyAndAHalf | src/lib/__tests__/VideoTimeService-test.js:47-83 | 30.5 s prints `0:00:30:15` |
| VideoTimeService.HalfASecond | src/lib/__tests__/VideoTimeService-test.js:47-83 | 0.5 s prints `0:00:00:15` |
| VideoTimeService.HourAndAMinute | src/lib/__tests__/VideoTimeService-test.js:47-83 | 3660 s prints `1:01:00:00` |
| VideoTimeService.FiftySecondsAtDefaultRate | src/lib/__tests__/VideoTimeService-test.js:47-83 | 50 s at the default rate prints `0:00:50:00` |
| VideoTimeService.ReadsFields | src/lib/VideoTimeService.js:52-58 | four `:`-separated fields read as hours, minutes, seconds and frames |
| VideoTimeService.String2SecondsExamples | src/lib/__tests__/VideoTimeService-test.js:8-45 | `0:00:14:01` reads as 14 s plus one frame at 30 and at 60 fps |
| VideoTimeService.String2SecondsMinuteAndHalf | src/lib/__tests__/VideoTimeService-test.js:8-45 | `0:01:30:15` reads as 90.5 s |
| VideoTimeService.ReadsUnpadded | src/lib/VideoTimeService.js:52-58 | unpadded fields read like padded ones |
| VideoTimeService.String2SecondsUnpadded | src/lib/__tests__/VideoTimeService-test.js:8-45 | `1:1:0:0` reads as 3660 s |
| VideoTimeService.ReadsSecondsAndFrames | src/lib/VideoTimeService.js:52-58 | two fields read as seconds and frames |
| VideoTimeService.String2SecondsTwoFields | src/lib/__tests__/VideoTimeService-test.js:8-45 | `30:15` reads as 30.5 s |
| VideoTimeService.ReadsFrames | src/lib/VideoTimeService.js:52-58 | one field reads as frames |
| VideoTimeService.String2SecondsOneField | src/lib/__tests__/VideoTimeService-test.js:8-45 | `15` reads as half a second at 30 fps |
| VideoTimeService.PaddedChunks | src/lib/VideoTimeService.js:98-103 | the last four chunks fill the four slots from the right, the rest are `00` |
| VideoTimeService.ValidateTimeString | src/lib/VideoTimeService.js:92-114 | the loop fills exactly the padded slots and the check accepts exactly when all are numerals |
| VideoTimeService.ValidatedShape | src/lib/VideoTimeService.js:108-113 | an accepted time has four numeral fields |
| VideoTimeService.ValidateIdempotent | src/lib/VideoTimeService.js:92-114 | validating a validated time gives it back |
| VideoTimeService.PaddedNumerals | src/lib/VideoTimeService.js:101-112 | all padded slots are numerals exactly when the last four chunks are |
| VideoTimeService.ValidateAccepts | src/lib/VideoTimeService.js:92-112 | a flag is rejected, and a string is accepted exactly when its last four chunks are numerals |
| VideoTimeService.ValidAsIs | src/lib/VideoTimeService.js:98-113 | a four-field numeral timecode is accepted unchanged |
| VideoTimeService.ValidateShortForm | src/lib/VideoTimeService.js:98-113 | `0:01` is padded to `00:00:0:01` |
| VideoTimeService.ValidateBareNumber | src/lib/VideoTimeService.js:98-113 | a bare number is padded into the frames slot |
| VideoTimeService.ValidateRejectsSuffix | src/lib/VideoTimeService.js:108-111 | `1.5s` is rejected |
| VideoTimeService.ValidateRejectsEmptyChunk | src/lib/VideoTimeService.js:108-111 | an empty field, as in `0::01`, is rejected |
| VideoTimeService.ValidatedSeconds | src/lib/VideoTimeService.js:69-71 | an accepted time reads as the seconds of its four fields |
| VideoTimeService.GetStartTime | src/lib/VideoTimeService.js:65-87 | a start time is a number except when a valid `t` is read at a zero frame rate |
| VideoTimeService.StartTimeCases | src/lib/VideoTimeService.js:65-87 | no `t` or an invalid one starts at 0 at any frame rate; a valid one gives no number at a zero rate, and otherwise starts at 1000 times the seconds of its four fields |
| VideoTimeService.StartTimeOfValid | src/lib/VideoTimeService.js:67-72 | a valid `t` starts at 1000 times the seconds it reads as |
| VideoTimeService.FourNumeralsValid | src/lib/VideoTimeService.js:92-113 | four numeral fields joined by `:` are accepted unchanged |
| VideoTimeService.StartTimeFields | src/lib/VideoTimeService.js:67-72 | a four-field `t` starts at its fields' time in ms |
| VideoTimeService.StartTimeOfTimecode | src/lib/VideoTimeService.js:67-72 | a printed timecode in `t` starts at its seconds in ms |
| VideoTimeService.StartTimeOneFrame | src/lib/__tests__/VideoTimeService-test.js:94-98 | `0:00:14:01` at 29.97 fps starts 14 s and one frame in |
| VideoTimeService.StartTimeWholeSeconds | src/lib/__tests__/VideoTimeService-test.js:89-93 | `0:00:14:00` starts at 14000 ms |
| VideoTimeService.StartTimeMinuteAndOneFrame | src/lib/__tests__/VideoTimeService-test.js:99-103 | `0:01:00:01` at 60 fps starts a minute and one frame in |
| VideoTimeService.BareNumberPadded | src/lib/VideoTimeService.js:98-113 | a bare number in `t` starts at that many frames |
| VideoTimeService.ThousandFrames | src/lib/VideoTimeService.js:52-58 | `00:00:00:1000` reads as 1000 frames |
| VideoTimeService.StartTimeBareNumber | src/lib/__tests__/VideoTimeService-test.js:109-112 | the code starts `1000` at 1000 frames at the default rate, not 1000 ms |
| VideoTimeService.StartTimeSuffixed | src/lib/__tests__/VideoTimeService-test.js:113-117 | the code starts `1.5s` at 0 |
| VideoTimeService.StartTimeCidOnly | src/lib/VideoTimeService.js:73-86 | a query with only a `cid` starts at 0 |
| VideoTimeService.MinutesField | src/lib/VideoTimeService.js:128-132 | the minutes field reads back as the minutes, padded only after hours |
| VideoTimeService.SecondsField | src/lib/VideoTimeService.js:128-132 | the seconds field is two digits that read back as the seconds |
| VideoTimeService.HoursField | src/lib/VideoTimeService.js:128-132 | the hours field reads back as the hours |
| VideoTimeService.ClockFieldsSplit | src/lib/VideoTimeService.js:128-133 | the clock text splits on `:` into its fields |
| VideoTimeService.BasicTimePartsShape | src/lib/VideoTimeService.js:128-133 | the clock has an hours field exactly when the time reaches an hour |
| VideoTimeService.BasicTimePartsNumerals | src/lib/VideoTimeService.js:128-133 | every clock field is a numeral |
| VideoTimeService.BasicTimePartsValue | src/lib/VideoTimeService.js:123-133 | the fields recompose the whole seconds |
| VideoTimeService.BasicTimeReadsBack | src/lib/VideoTimeService.js:122-134 | the clock of a non-negative time in ms reads back as its whole seconds |
| VideoTimeService.BasicTimeZero | src/lib/VideoTimeService.js:122-134 | 0 ms shows as `0:00` |
| VideoTimeService.BasicTimeUnderAnHour | src/lib/VideoTimeService.js:122-134 | 65999 ms shows as `1:05` |
| VideoTimeService.BasicTimeOneHour | src/lib/VideoTimeService.js:122-134 | an hour shows as `1:00:00` |
| VideoTimeService.BasicTimeUnpaddedMinutes | src/lib/VideoTimeService.js:122-134 | 1 h 5 min 7 s shows as `1:5:07`: minutes are not padded after the hours |
| Layout.SumAppend | src/components/controls/Slider.js:166-169 | the offset of a nested chain is the sum of the parts' offsets |
| Layout.PageOffset | src/components/controls/Slider.js:159-169 | the loop up the `offsetParent` chain adds up exactly every offset |
| Layout.Clamp | src/components/controls/Slider.js:171 | the result lies in [0, 1], equals a value already there, and is the nearer end otherwise |
| Layout.Position | src/components/controls/Slider.js:171 | the pointer fraction lies in [0, 1], times the width is the distance inside the bar, clamps outside it, and is `NaN` only for a zero distance over a zero width |
| Layout.EventPosition | src/components/controls/Slider.js:159-172 | the pointer's position is its clamped fraction across the bar from the bar's page offset |
| Slider.NearestIndex | src/components/controls/Slider.js:117-119 | the chosen option is as near the value as any, and the earliest of the nearest |
| Slider.GetValue | src/components/controls/Slider.js:109-120 | without options the value is the prop; an empty option list is an error; otherwise the nearest option |
| Slider.TieKeepsEarlier | src/components/controls/Slider.js:117-119 | on a tie the earlier option wins |
| Slider.PickOption | src/components/controls/Slider.js:135-136 | a position on the bar picks one of the options |
| Slider.RangePoint | src/components/controls/Slider.js:137-138 | a position on the bar maps into the range between low and high |
| Slider.ChangeValue | src/components/controls/Slider.js:126-139 | the new value is an option or a point of the range, and never a number for a `NaN` position |
| Slider.OptionIndexInRange | src/components/controls/Slider.js:136 | the rounded index always lands on the option list |
| Slider.RangeValueWithin | src/components/controls/Slider.js:138 | the scaled value stays between low and high |
| Slider.IndexOf | src/components/controls/Slider.js:196 | the index is the first occurrence of the value, or -1 when absent, in both directions |
| Slider.RenderPosition | src/components/controls/Slider.js:194-200 | the handle has a position unless the range is empty or there is a single option |
| Slider.RenderInvertsRange | src/components/controls/Slider.js:194-200 | rendering a value picked from the range puts the handle back where the pointer was |
| Slider.RenderNearOption | src/components/controls/Slider.js:194-200 | rendering a picked option puts the handle within half a step of the pointer |
| Slider.SliderComponent.constructor | src/components/controls/Slider.js:13-29 | a new slider holds the prop value and is not dragging or listening |
| Slider.SliderComponent.HandleChange | src/components/controls/Slider.js:126-151 | the value under the pointer is reported exactly when it strictly differs from the last one reported |
| Slider.SliderComponent.HandleClick | src/components/controls/Slider.js:102-107 | a click is a change at the pointer, reported when the value strictly differs from the last |
| Slider.SliderComponent.HandleMouseDown | src/components/controls/Slider.js:63-66 | a press attaches the document listeners and changes nothing else |
| Slider.SliderComponent.HandleMouseMove | src/components/controls/Slider.js:85-96 | every move reports the value under the pointer when it strictly differs from the last; the first move of a drag reports the drag start, and the slider drags from then on |
| Slider.SliderComponent.HandleMouseUp | src/components/controls/Slider.js:71-79 | a release detaches the listeners, and ends a drag with a drag-stop call only when one was on |
| ProgressBar.ResizeSettles | src/components/controls/ProgressBar.js:86-94 | once a measurement is stored, the same measurement is not stored again |
| ProgressBar.ProgressBarComponent.constructor | src/components/controls/ProgressBar.js:18-26 | a new bar is unmeasured (-1 by -1) and not scrubbing |
| ProgressBar.ProgressBarComponent.UpdateDimensions | src/components/controls/ProgressBar.js:86-94 | a measurement is stored exactly when it is a number that differs from the stored one |
| ProgressBar.ProgressBarComponent.ScrubToPercent | src/components/controls/ProgressBar.js:169-174 | seeks the video to the percent and tells `onScrub` |
| ProgressBar.ProgressBarComponent.HandleMouseDown | src/components/controls/ProgressBar.js:124-143 | seeks to the pointer unless it is at 0, remembers whether the player was playing, pauses and starts scrubbing |
| ProgressBar.ProgressBarComponent.HandleMouseUp | src/components/controls/ProgressBar.js:148-163 | ends the scrub and plays again only if the player was playing at the press |
| ProgressBar.ProgressBarComponent.HandleMoveScrub | src/components/controls/ProgressBar.js:181-191 | outside a scrub nothing happens; inside, seeks to the pointer unless it is at 0 |
| Video.Fit | src/components/video/Video.js:229-241 | an element wider than the video shows a frame of its full height and the floored width `offsetHeight * videoWidth / videoHeight`; any other shows a frame of its full width and the floored height `offsetWidth * videoHeight / videoWidth`; the frame fits inside the element and is centred with whole-pixel padding |
| Video.Letterbox | src/components/video/Video.js:229-243 | a frame exists exactly when the video and element sizes are positive and the fitted, floored width is positive; it is then the fitted frame |
| Video.ClickPoint | src/components/video/Video.js:243-251 | a click maps into the video exactly when a frame exists |
| Video.CornerIsOrigin | src/components/video/Video.js:243-251 | the frame's top-left corner maps to the video's origin |
| Video.RightEdgeIsVideoWidth | src/components/video/Video.js:243-251 | the frame's right edge maps to the video's native width |
| Video.ClickScales | src/components/video/Video.js:243-251 | moving the click one pixel right and one down moves the mapped point by the native-over-displayed width ratio on each axis |
| Video.VideoComponent.constructor | src/components/video/Video.js:30-43 | the component wraps its element and has seen no clicks |
| Video.VideoComponent.Play | src/components/video/Video.js:129-131 | the element plays and nothing else changes |
| Video.VideoComponent.Pause | src/components/video/Video.js:147-149 | the element pauses and nothing else changes |
| Video.VideoComponent.TogglePlay | src/components/video/Video.js:136-142 | the element switches between playing and paused |
| Video.VideoComponent.Seek | src/components/video/Video.js:101-107 | the current time is set and nothing else changes |
| Video.VideoComponent.SeekByPercent | src/components/video/Video.js:81-87 | a fraction in [0, 1] seeks that far into the duration; any other is refused |
| Video.VideoComponent.SeekByMilliseconds | src/components/video/Video.js:93-95 | the current time becomes the target in seconds |
| Video.VideoComponent.PlaybackRate | src/components/video/Video.js:155-161 | the element's rate is set and nothing else changes |
| Video.VideoComponent.Mute | src/components/video/Video.js:166-168 | the element is muted |
| Video.VideoComponent.Unmute | src/components/video/Video.js:173-175 | the element is unmuted |
| Video.VideoComponent.Volume | src/components/video/Video.js:181-187 | a volume is set exactly when it lies in [0, 1] |
| Video.VideoComponent.FindPos | src/components/video/Video.js:202-208 | the loop up the `offsetParent` chain adds up exactly every offset |
| Video.VideoComponent.CalculateClickPosition | src/components/video/Video.js:215-252 | the click position is the page position, made relative to the element, mapped into the video |
| Video.VideoComponent.HandleClick | src/components/video/Video.js:258-267 | an `onClick` handler receives the click's position in the video, and the click toggles play unless the handler prevents the default |

## Left out

- A `NaN` or an infinity is `None` throughout; floating-point rounding error is not modelled, and decimal inputs are exact reals.
- VideoTimeService.String2Seconds and GetStartTime: the `NaN` or infinite result of a zero frame rate is `None`.
- VideoPlayerStore.InitialState: the record's `periodSwitch: null` default (src/data/VideoPlayerStore.js:72) is not a field; no handler reads or writes it.
- VideoTimeService.ShowsNegative: `toFixed(3) < 0` is modelled by its exact threshold of -0.0005, not by decimal printing.
- VideoTimeService.GetStartTime: the `console.error('Not Done')` logged in the `cid` branch is output only and is not modelled; the branch's result, 0, is.
- VideoTimeService.GetStartTime: no parser for durations such as `1.5s`, `5m` or a bare millisecond count exists in the code. Those inputs get what the code gives them, which differs from the repository's test table.
- QueryString.QueryString2Map: no percent-decoding, as in the code. Keys are kept in first-assignment order, like JavaScript's property order for non-numeric keys.
- QueryString.Map2QueryString: serialises the pairs in insertion order for every key. `Object.keys` in the source lists integer-like keys such as `"2"` first, in ascending order, before the other keys; that reordering is not modelled.
- The event emitter, the Flux dispatcher and `removeAllListeners` are not modelled. Dispatches deferred with `setTimeout` are kept as the `queued` log rather than delivered. Emitted events are the `emitted` log.
- The progress bar's `setInterval` resize polling and the document-level listeners are a flag (`listening`) only. `getContainerSize` is a parameter.
- dash.js is a snapshot record of what the stores read from it (`DashPlayer`). VideoPlayerStore.InitialState writes `streamInitialized: null` as `false`.
- VideoPlayerActions.Actions.Step, StepBack and StepForward: the `NaN` guard on the step length cannot arise with reals. Stepping requires a non-zero frame rate, where the source would divide by zero. Actions.HandleKeyDown requires it only when shortcuts apply and the key is an arrow key, that is when it steps.
- Video.VideoComponent.Seek, PlaybackRate and SeekByMilliseconds: the `NaN` guards are not modelled, since reals cannot be `NaN`.
- The prototype's `seekByPercent`, which the relay loop overwrites in the constructor, is not modelled; only the relay is.
- PlayerAction.Unhandled: a type string no handler is named by is one `Unhandled` case and changes nothing. `ActionMap[action.type]` in the source also finds inherited `Object.prototype` members such as `toString` or `constructor`; those would be called as handlers and replace the state. The model treats such strings as unhandled.
- VideoState.KeyText: the key text is modelled only for whole-number endpoints. JavaScript's printing of other numbers is not modelled.
- Video.Letterbox: where a size is zero, or the fitted width floors to 0, the model gives no frame and no click point. The source still computes one. For a zero video height with positive widths it is finite: the ratio is infinite, so the frame is the full element width with height 0. In the other cases the coordinates are `NaN` or infinite.
- Video.VideoComponent.Play and Pause: `play()` and `pause()` are modelled as the element's `paused` flag; media loading is not modelled.
- The video element's listener wiring is not modelled: `componentDidMount` and `componentWillUnmount`.
- React details are not modelled:
  - rendering, `componentWillReceiveProps` and `shouldComponentUpdate`;
  - `setState` is treated as immediate.
- Slider.GetValue is modelled, but its result is not used by render, matching the code.
- VideoPlayerStore.ResetHandler: `reset` keeps `this.options`, which is modelled as the current state's options.
- The store getters, `FullscreenService` and the UI components outside the slider, progress bar and video are not part of this model.

## Findings

| source | as written | input that shows it | evidently intended | confidence | as-written member | corrected member |
|---|---|---|---|---|---|---|
| src/lib/VideoTimeService.js:31-38 | when the frames round up to a whole second, the seconds are incremented (and the minutes when the seconds were 59) without resetting the seconds | 59.999 s at 30 fps prints `0:01:60:00`, which reads back as 120 s | carry into the next whole second, printing `0:01:00:00` | not executed | VideoTimeService.CarryOnSecond59 | VideoTimeService.CarriedRoundTrip |
