# CyberGarage4Android DLNA controller — a Dafny model

The repository is an Android DLNA (UPnP AV) control point. It discovers
media renderers on the local network, lets the user choose one, and sends
it transport commands: set URI, play, pause, resume, stop, seek, position
and duration queries, and volume and mute. This project models the
deterministic core of that control point and proves properties about it:

- **The time codec** (module `TimeCodec`). `format(String)` reads `H:MM:SS[.frac]`, `M:SS` or a bare number of seconds. `format(int)` writes zero-padded `HH:MM:SS` with hours capped at 99. Both are pure functions over Java strings and `int`s. The Java library behaviour they depend on is modelled in `JavaText`: `String.split` (trailing empty pieces dropped), `Integer.valueOf` (optional sign, 32-bit range), `indexOf`/`lastIndexOf`, `equalsIgnoreCase` and `int` overflow.
- **The transport-state mapper** (module `TransportState`). It takes the AVTransport `CurrentTransportState` string to the controller's `STATE_*` code.
- **The `*Sync` decision procedures** (module `ControlActions`). Each one checks that the renderer advertises the service and action. It then posts one or two invocations in a fixed order and reads an output argument. The renderer is a `Device` (module `Upnp`), a record of the services and actions it advertises. The network is a `Gateway`: an oracle for each post's outcome and each returned argument. Every `*Sync` function returns its result together with the list of invocations it posted.
- **The controller** (module `Controller`). The class `MultiPointController` keeps `isPlaying`, `isPaused` and a `polling` flag. `polling` stands for "an `MSG_UPDATE_PROGRESS` message is queued". The class also keeps the device of the last `play`, the `PlayerMonitor` callbacks delivered so far and the invocations posted so far. Each command runs its `*Sync` half, then applies the main-thread reaction. A reaction is a pure function of the old flags and the result (`On...Result`). The progress tick is the method `Tick`.
- **The device manager** (module `DeviceManager`):
  - the media-renderer filter;
  - in-place add and remove on the device list, matching UDNs up to case;
  - the chosen device;
  - `startDiscovery`/`stopDiscovery`;
  - the search thread's loop, over an abstract clock;
  - the main handler's dispatch of queued messages to the listener.
- **The player view** (module `PlayerView`). This is `formatTimeSeconds` together with the fields that `setDuration`, `reset`, `updateProcess` and `getCurrentDuration` read and write.
- **The start screen** (module `StartScreen`). It covers the query acceptance rule of `onQueryTextSubmit` and the extension label of `onBindViewHolder`.

Where the code differs from what its documentation describes, the model follows the code:

- `play`'s reaction never clears `isPaused` and does not itself start polling. Polling starts only after a positive media duration, a successful resume or a successful seek.
- `deviceAdded` does not deduplicate: the UDN scan's `break` only leaves the loop.
- `stopDiscovery` does not reset `started`.
- A failed pause sets `isPlaying`.
- `startDiscovery` while the previous search thread is still running throws `IllegalThreadStateException`, and no started message is queued.
- `formatTimeSeconds` does not pad the seconds from ten minutes on (605 s reads "10:5").
- The query check looks only at the FIRST dot, so "a.b." is accepted.
- `format(int)` on a negative value produces "00:00:0-5" for -5.

## Model

| member | source | states |
|---|---|---|
| TimeCodec.ParseTime | dlna-lib/src/main/java/com/android/dlna/player/control/MultiPointController.java:664-682 | the empty string reads as -1 |
| TimeCodec.FieldsValue | dlna-lib/src/main/java/com/android/dlna/player/control/MultiPointController.java:671-681 | the field-count switch of `format(String)` with `Integer.valueOf` and `int` wrap-around; its own contract fixes only the no-field and one-field cases, and ReadTwoFields, ReadThreeFields and FormatParseRoundTrip state what the other cases mean |
| TimeCodec.ReadTwoFields | dlna-lib/src/main/java/com/android/dlna/player/control/MultiPointController.java:671-681 | a string with two literal fields reads as sixty times the first plus the second |
| TimeCodec.ReadThreeFields | dlna-lib/src/main/java/com/android/dlna/player/control/MultiPointController.java:671-681 | a string whose first three fields are literals reads as `3600*a+60*b+c`, whatever follows |
| TimeCodec.ParseTimeOneField | dlna-lib/src/main/java/com/android/dlna/player/control/MultiPointController.java:671-681 | a single integer field reads as that integer |
| TimeCodec.ParseTimeTwoFields | dlna-lib/src/main/java/com/android/dlna/player/control/MultiPointController.java:671-681 | `a:b` reads as `60*a+b` (with `int` wrap-around) |
| TimeCodec.ParseTimeThreeFields | dlna-lib/src/main/java/com/android/dlna/player/control/MultiPointController.java:671-681 | `a:b:c` followed by any further `:`-fields reads as `3600*a+60*b+c`; the extra fields are ignored |
| TimeCodec.ParseTimeDropsFraction | dlna-lib/src/main/java/com/android/dlna/player/control/MultiPointController.java:668-670 | everything from the first dot on is ignored |
| TimeCodec.ParseTimeOnlySeparators | dlna-lib/src/main/java/com/android/dlna/player/control/MultiPointController.java:671-681 | a string of colons alone splits into no fields and reads as -1 |
| TimeCodec.UnitFormat | dlna-lib/src/main/java/com/android/dlna/player/control/MultiPointController.java:699-704 | `unitFormat`; it has no contract of its own: UnitFormatDigits and FormatTimeNegative state what it produces |
| TimeCodec.FormatTime | dlna-lib/src/main/java/com/android/dlna/player/control/MultiPointController.java:684-697 | `format(int)`; it has no contract of its own: FormatTimeFields, FormatTimeBelowCap, FormatParseRoundTrip and FormatTimeNegative state what it produces |
| TimeCodec.UnitFormatDigits | dlna-lib/src/main/java/com/android/dlna/player/control/MultiPointController.java:699-704 | `unitFormat` of a non-negative value is a digit string of at least two digits that reads back as the value; below 100 it is exactly two digits |
| TimeCodec.FormatTimeFields | dlna-lib/src/main/java/com/android/dlna/player/control/MultiPointController.java:684-697 | for `t >= 0` the text has three fields: `h = min(t/3600, 99)`, `m = (t/60)%60 < 60`, and `s = t - 3600h - 60m`, which can exceed 59 above the cap |
| TimeCodec.FormatTimeBelowCap | dlna-lib/src/main/java/com/android/dlna/player/control/MultiPointController.java:684-697 | below 100 hours the text is `HH:MM:SS`, exactly eight characters, with two-digit fields |
| TimeCodec.FormatParseRoundTrip | dlna-lib/src/main/java/com/android/dlna/player/control/MultiPointController.java:664-697 | parsing the formatted text of any `n >= 0` gives `n` back, above the 99-hour cap too |
| TimeCodec.FormatTimeNegative | dlna-lib/src/main/java/com/android/dlna/player/control/MultiPointController.java:684-704 | a negative input is not padded correctly: -5 gives "00:00:0-5" |
| TransportState.FormatTransportState | dlna-lib/src/main/java/com/android/dlna/player/control/MultiPointController.java:706-729 | the code is always one of the eight constants, and a missing value gives `STATE_ERR` |
| TransportState.StateNameRoundTrip | dlna-lib/src/main/java/com/android/dlna/player/control/IController.java:6-13 | each of the seven state names maps to its own constant, so the mapping is injective on them |
| TransportState.FormatTransportStateInverse | dlna-lib/src/main/java/com/android/dlna/player/control/MultiPointController.java:706-729 | every value other than the seven exact names maps to `STATE_ERR` |
| TransportState.FormatTransportStateCaseSensitive | dlna-lib/src/main/java/com/android/dlna/player/control/MultiPointController.java:707-726 | matching is case-sensitive: "playing" and "Stopped" give `STATE_ERR` |
| ControlActions.Command | dlna-lib/src/main/java/com/android/dlna/player/control/MultiPointController.java:634-662 | a single-action command succeeds exactly when the action is advertised and its post succeeds; the action is posted only when it is advertised |
| ControlActions.Query | dlna-lib/src/main/java/com/android/dlna/player/control/MultiPointController.java:525-563 | a query yields the output argument exactly when the action is advertised and its post succeeds, and nothing otherwise |
| ControlActions.PlaySync | dlna-lib/src/main/java/com/android/dlna/player/control/MultiPointController.java:396-426 | nothing is posted when either action is missing or the path is empty; otherwise `SetAVTransportURI` is posted first, `Play` only after it succeeds and at most these two, and the result is `Play`'s outcome |
| ControlActions.ResumeSync | dlna-lib/src/main/java/com/android/dlna/player/control/MultiPointController.java:428-456 | `Seek` with `ABS_TIME` and `format(pausePosition)` is posted first; `Play` is posted after it whether the seek succeeded or not; the result is `Play`'s outcome; a missing `Seek` posts nothing and fails |
| ControlActions.SeekToSync | dlna-lib/src/main/java/com/android/dlna/player/control/MultiPointController.java:498-523 | `ABS_TIME` is tried first and `REL_TIME` only after it fails; the result is the outcome of the last attempt |
| ControlActions.PauseSync | dlna-lib/src/main/java/com/android/dlna/player/control/MultiPointController.java:634-646 | succeeds exactly when `Pause` is advertised and its post succeeds |
| ControlActions.StopSync | dlna-lib/src/main/java/com/android/dlna/player/control/MultiPointController.java:648-662 | succeeds exactly when `Stop` is advertised and its post succeeds |
| ControlActions.SetMuteSync | dlna-lib/src/main/java/com/android/dlna/player/control/MultiPointController.java:565-579 | success iff advertised and posted; exactly the one `SetMute` invocation is posted when advertised and none otherwise; `DesiredMute` is "1" for mute and "0" otherwise |
| ControlActions.SetVolumeSync | dlna-lib/src/main/java/com/android/dlna/player/control/MultiPointController.java:597-612 | success iff advertised and posted; exactly the one `SetVolume` invocation is posted when advertised and none otherwise; `DesiredVolume` is the decimal text of the volume |
| ControlActions.GetTransportStateSync | dlna-lib/src/main/java/com/android/dlna/player/control/MultiPointController.java:458-478 | `GetTransportInfo` is posted exactly when advertised; the result is `STATE_ERR` when the service or action is missing or the post fails, and after a successful post it is the code `formatTransportState` gives the returned `CurrentTransportState`; any code but `STATE_ERR` is the one whose name the renderer returned |
| ControlActions.GetVolumeRangeSync | dlna-lib/src/main/java/com/android/dlna/player/control/MultiPointController.java:480-496 | `GetVolumeDBRange` is posted exactly when advertised; a value is returned only when the action is advertised and its post succeeds, and then it is the requested bound |
| ControlActions.GetPositionInfoSync | dlna-lib/src/main/java/com/android/dlna/player/control/MultiPointController.java:525-543 | `GetPositionInfo` is posted exactly when advertised; a value is returned only when the action is advertised and its post succeeds, and then it is `AbsTime` |
| ControlActions.GetMediaDurationSync | dlna-lib/src/main/java/com/android/dlna/player/control/MultiPointController.java:545-563 | `GetMediaInfo` is posted exactly when advertised; a value is returned only when the action is advertised and its post succeeds, and then it is `MediaDuration` |
| ControlActions.GetMuteSync | dlna-lib/src/main/java/com/android/dlna/player/control/MultiPointController.java:581-595 | `CurrentMute` is read whenever the action is advertised, even if the post failed |
| ControlActions.GetVolumeSync | dlna-lib/src/main/java/com/android/dlna/player/control/MultiPointController.java:614-632 | `CurrentVolume`, a Java `int`, after a successful post, -1 otherwise; `GetVolume` is posted exactly when advertised |
| ControlActions.ResumeIgnoresSeekOutcome | dlna-lib/src/main/java/com/android/dlna/player/control/MultiPointController.java:440-452 | two renderers that differ only in how they answer the `Seek` post produce the same resume result and the same posts |
| ControlActions.PlayNeedsUri | dlna-lib/src/main/java/com/android/dlna/player/control/MultiPointController.java:412-421 | when `SetAVTransportURI` fails, `Play` is never posted and play fails |
| ControlActions.SeekFallsBackOnce | dlna-lib/src/main/java/com/android/dlna/player/control/MultiPointController.java:508-521 | the `REL_TIME` retry is posted exactly when `Seek` is advertised and the `ABS_TIME` post failed |
| Controller.ReportedSeconds | dlna-lib/src/main/java/com/android/dlna/player/control/MultiPointController.java:212 | "NOT_IMPLEMENTED" stands for -1 and any other text is read by `format(String)`; what that means for polling is stated by NotImplementedStopsPolling and PollingStarters, and what the text reads as by the ParseTime lemmas and FormatParseRoundTrip |
| Controller.OnPlayResult | dlna-lib/src/main/java/com/android/dlna/player/control/MultiPointController.java:61-73 | `isPlaying` becomes the outcome; `isPaused` and polling are left alone; the callback is `onPlay` or `onError` |
| Controller.OnResumeResult | dlna-lib/src/main/java/com/android/dlna/player/control/MultiPointController.java:97-108 | `(isPlaying, isPaused) = (ret, !ret)`; polling runs exactly on success |
| Controller.OnPauseResult | dlna-lib/src/main/java/com/android/dlna/player/control/MultiPointController.java:341-353 | `(isPaused, isPlaying) = (ret, !ret)`; polling stops on success |
| Controller.OnStopResult | dlna-lib/src/main/java/com/android/dlna/player/control/MultiPointController.java:371-388 | success clears both flags and polling; failure changes nothing; no flag is ever set |
| Controller.OnSeekResult | dlna-lib/src/main/java/com/android/dlna/player/control/MultiPointController.java:182-191 | polling runs exactly on success; the callback is `onSeekComplete` or `onError` |
| Controller.OnPositionResult | dlna-lib/src/main/java/com/android/dlna/player/control/MultiPointController.java:207-218 | an empty result gives `onError` and no progress event; otherwise the position is reported, and a negative value stops polling |
| Controller.OnDurationResult | dlna-lib/src/main/java/com/android/dlna/player/control/MultiPointController.java:232-245 | an empty result gives `onError` only; otherwise the duration is reported and polling runs exactly when it is positive |
| Controller.OnMinVolumeResult | dlna-lib/src/main/java/com/android/dlna/player/control/MultiPointController.java:131-148 | only an empty answer is reported, as `onError` |
| Controller.OnMaxVolumeResult | dlna-lib/src/main/java/com/android/dlna/player/control/MultiPointController.java:151-170 | the bound is reported as an `int`; an empty answer gives `onError` |
| Controller.OnSetMuteResult | dlna-lib/src/main/java/com/android/dlna/player/control/MultiPointController.java:253-268 | a failed set-mute reports nothing |
| Controller.OnGetMuteResult | dlna-lib/src/main/java/com/android/dlna/player/control/MultiPointController.java:272-291 | muted exactly when the answer is "1"; an empty answer gives `onError` |
| Controller.OnSetVolumeResult | dlna-lib/src/main/java/com/android/dlna/player/control/MultiPointController.java:295-314 | the requested volume is reported on success, `onError` otherwise |
| Controller.OnGetVolumeResult | dlna-lib/src/main/java/com/android/dlna/player/control/MultiPointController.java:318-333 | whatever came back is reported, including -1 for a failure |
| Controller.PlayAfterPauseKeepsPaused | dlna-lib/src/main/java/com/android/dlna/player/control/MultiPointController.java:61-73 | a play after a successful pause leaves the controller both playing and paused |
| Controller.PollingStarters | dlna-lib/src/main/java/com/android/dlna/player/control/MultiPointController.java:104-107 | only a successful resume, a successful seek or a positive duration starts polling; play, pause, stop and position never do |
| Controller.MissingPositionKeepsPolling | dlna-lib/src/main/java/com/android/dlna/player/control/MultiPointController.java:203-210 | a renderer without `GetPositionInfo`, or whose position post fails, only gets `onError`: the flags are kept, so the already queued tick keeps polling |
| Controller.IsEmptyText | dlna-lib/src/main/java/com/android/dlna/player/control/MultiPointController.java:665 | `TextUtils.isEmpty`: null or ""; it has no contract of its own, and the `On...Result` reactions state what each handler does on an empty answer |
| Controller.NotImplementedStopsPolling | dlna-lib/src/main/java/com/android/dlna/player/control/MultiPointController.java:208-214 | a renderer that answers "NOT_IMPLEMENTED" for `AbsTime` is reported as progress -1 and polling ends |
| Controller.MultiPointController.constructor | dlna-lib/src/main/java/com/android/dlna/player/control/MultiPointController.java:36-39 | no monitor, no device, all flags clear, nothing delivered or posted |
| Controller.MultiPointController.SetPlayMonitor | dlna-lib/src/main/java/com/android/dlna/player/control/MultiPointController.java:42-44 | installs or removes the monitor and changes nothing else |
| Controller.MultiPointController.React | dlna-lib/src/main/java/com/android/dlna/player/control/MultiPointController.java:61-73 | with a monitor the reaction's flags and callbacks are applied; without one no flag or callback changes |
| Controller.MultiPointController.Play | dlna-lib/src/main/java/com/android/dlna/player/control/MultiPointController.java:47-79 | the device is remembered; with a monitor, `onPreparing` comes first and then the play reaction; on success the duration, max-volume and volume queries are queued |
| Controller.MultiPointController.Resume | dlna-lib/src/main/java/com/android/dlna/player/control/MultiPointController.java:92-115 | the resume reaction applied to `resumeSync`'s outcome, with its posts logged |
| Controller.MultiPointController.Pause | dlna-lib/src/main/java/com/android/dlna/player/control/MultiPointController.java:336-358 | the pause reaction applied to `pauseSync`'s outcome |
| Controller.MultiPointController.Stop | dlna-lib/src/main/java/com/android/dlna/player/control/MultiPointController.java:366-392 | the stop reaction applied to `stopSync`'s outcome |
| Controller.MultiPointController.Seek | dlna-lib/src/main/java/com/android/dlna/player/control/MultiPointController.java:174-195 | the target is sent as `format(int)` text; the seek reaction follows |
| Controller.MultiPointController.OnSeekBegin | dlna-lib/src/main/java/com/android/dlna/player/control/MultiPointController.java:361-363 | drops the queued progress message, monitor or not |
| Controller.MultiPointController.GetPositionInfo | dlna-lib/src/main/java/com/android/dlna/player/control/MultiPointController.java:199-222 | the position reaction applied to `getPositionInfoSync`'s answer |
| Controller.MultiPointController.GetMediaDuration | dlna-lib/src/main/java/com/android/dlna/player/control/MultiPointController.java:224-249 | the duration reaction applied to `getMediaDurationSync`'s answer |
| Controller.MultiPointController.GetMinVolumeValue | dlna-lib/src/main/java/com/android/dlna/player/control/MultiPointController.java:131-148 | the min-volume reaction applied to the `MinValue` bound |
| Controller.MultiPointController.GetMaxVolumeValue | dlna-lib/src/main/java/com/android/dlna/player/control/MultiPointController.java:150-170 | the max-volume reaction applied to the `MaxValue` bound |
| Controller.MultiPointController.SetMute | dlna-lib/src/main/java/com/android/dlna/player/control/MultiPointController.java:253-268 | the set-mute reaction applied to `setMuteSync`'s outcome |
| Controller.MultiPointController.GetMute | dlna-lib/src/main/java/com/android/dlna/player/control/MultiPointController.java:272-291 | the get-mute reaction applied to `getMuteSync`'s answer |
| Controller.MultiPointController.SetVolume | dlna-lib/src/main/java/com/android/dlna/player/control/MultiPointController.java:295-314 | the set-volume reaction applied to `setVolumeSync`'s outcome |
| Controller.MultiPointController.GetVolume | dlna-lib/src/main/java/com/android/dlna/player/control/MultiPointController.java:318-333 | the get-volume reaction applied to `getVolumeSync`'s answer |
| Controller.MultiPointController.GetTransportState | dlna-lib/src/main/java/com/android/dlna/player/control/MultiPointController.java:119-127 | the state is computed and dropped: no flag or callback changes |
| Controller.MultiPointController.RunFollowUp | dlna-lib/src/main/java/com/android/dlna/player/control/MultiPointController.java:63-70 | the oldest query queued by a successful play runs with its own reaction |
| Controller.MultiPointController.Tick | dlna-lib/src/main/java/com/android/dlna/player/control/MultiPointController.java:17-30 | the progress tick asks for the last played device's position and keeps polling unless the position reaction stops it |
| Controller.PauseThenPlay | dlna-lib/src/main/java/com/android/dlna/player/control/MultiPointController.java:47-72 | play after a successful pause sets `isPlaying` and leaves `isPaused` set, so the controller reports playing and paused at once |
| Controller.RefusedPause | dlna-lib/src/main/java/com/android/dlna/player/control/MultiPointController.java:341-346 | a refused pause on a stopped controller marks it playing, not paused, and reports `onError` |
| Controller.PlayWithoutMonitor | dlna-lib/src/main/java/com/android/dlna/player/control/MultiPointController.java:59-75 | without a monitor, a successful play reaches the renderer (two posts) but sets no flag |
| DeviceManager.FirstUdnMatch | dlna-lib/src/main/java/com/android/dlna/manager/DLNADeviceManager.java:111-112 | the index of the first entry whose UDN matches up to case, or -1 exactly when none does |
| DeviceManager.FirstUdnMatchAt | dlna-lib/src/main/java/com/android/dlna/manager/DLNADeviceManager.java:111-119 | the scan stops at the position that matches with no match before it |
| DeviceManager.Added | dlna-lib/src/main/java/com/android/dlna/manager/DLNADeviceManager.java:93-101 | the list after `deviceAdded`; it has no contract of its own: AddedAppends, AddSameTwice and RemoveUndoesAdd state what it does |
| DeviceManager.Removed | dlna-lib/src/main/java/com/android/dlna/manager/DLNADeviceManager.java:109-121 | the list after `deviceRemoved`; it has no contract of its own: RemovedTakesFirstMatch and RemoveUndoesAdd state what it does |
| DeviceManager.AddedAppends | dlna-lib/src/main/java/com/android/dlna/manager/DLNADeviceManager.java:93-101 | an added renderer is always appended: the list grows by one and ends with it, even when its UDN is already listed |
| DeviceManager.RemovedTakesFirstMatch | dlna-lib/src/main/java/com/android/dlna/manager/DLNADeviceManager.java:109-121 | removal deletes exactly the first UDN match and keeps the others in order; with no match the list is unchanged |
| DeviceManager.RemoveUndoesAdd | dlna-lib/src/main/java/com/android/dlna/manager/DLNADeviceManager.java:91-123 | removing a renderer undoes adding it when no listed device shares its UDN |
| DeviceManager.DisciplineAppend | dlna-lib/src/main/java/com/android/dlna/manager/DLNADeviceManager.java:161-172 | a permitted next step keeps the search discipline and updates `started` only on a start attempt |
| DeviceManager.DisciplineEveryStep | dlna-lib/src/main/java/com/android/dlna/manager/DLNADeviceManager.java:161-172 | in a disciplined run every step was permitted by the steps before it: `start` only while not started, `search` only while started, a sleep only right after a search, nothing after an interrupted sleep |
| DeviceManager.AnsweredEveryStep | dlna-lib/src/main/java/com/android/dlna/manager/DLNADeviceManager.java:161-172 | in a run that agrees with the oracles, the start attempt made as step `i` returned the control point's answer for `i`, and the sleep made as step `i` was interrupted exactly when an interrupt was pending or arrived |
| DeviceManager.AnsweredAppend | dlna-lib/src/main/java/com/android/dlna/manager/DLNADeviceManager.java:166-172 | a step that agrees with the oracles extends a run that does |
| DeviceManager.PassesAddStart | dlna-lib/src/main/java/com/android/dlna/manager/DLNADeviceManager.java:167-168 | a lone start attempt after `n` whole loop passes makes `n + 1` passes |
| DeviceManager.PassesAddSearch | dlna-lib/src/main/java/com/android/dlna/manager/DLNADeviceManager.java:169-171 | a search followed by a sleep after `n` whole loop passes makes `n + 1` passes |
| DeviceManager.AnsweredInterrupted | dlna-lib/src/main/java/com/android/dlna/manager/DLNADeviceManager.java:171 | when the thread was interrupted before the run, every sleep of the run was interrupted |
| DeviceManager.WithinWindowEvery | dlna-lib/src/main/java/com/android/dlna/manager/DLNADeviceManager.java:166 | each loop test before the last one taken found the elapsed time within 5000 ms |
| DeviceManager.StepAppend | dlna-lib/src/main/java/com/android/dlna/manager/DLNADeviceManager.java:166-172 | one permitted step that agrees with the oracles keeps the discipline and the agreement, and sets `started` to its result when it is a start attempt |
| DeviceManager.FirstStep | dlna-lib/src/main/java/com/android/dlna/manager/DLNADeviceManager.java:161-165 | the step before the loop is a start attempt answered by the control point, or a search when already started, and no loop pass follows it yet |
| DeviceManager.StartRoundSteps | dlna-lib/src/main/java/com/android/dlna/manager/DLNADeviceManager.java:167-168 | a start attempt while not started keeps the discipline and the oracles' agreement, sets `started` to its answer and, after `n` passes, makes `n + 1` |
| DeviceManager.SearchSleepSteps | dlna-lib/src/main/java/com/android/dlna/manager/DLNADeviceManager.java:169-171 | a search and a sleep while started keep the discipline and the oracles' agreement, keep `started` and, after `n` passes, make `n + 1` |
| DeviceManager.SearchRound | dlna-lib/src/main/java/com/android/dlna/manager/DLNADeviceManager.java:166-173 | one loop pass: a start attempt answered by the control point's result while not started, otherwise a search and a sleep interrupted exactly when an interrupt is pending or arrives; `started` becomes true only through a successful start; the pass keeps the discipline, and the steps after the first are `n + 1` whole passes when they were `n` |
| DeviceManager.SearchSteps | dlna-lib/src/main/java/com/android/dlna/manager/DLNADeviceManager.java:158-175 | the run terminates; it calls `start` only while not started and `search` only while started; it sleeps only after a search; every start attempt gets the control point's answer for that attempt and every sleep is interrupted exactly when an interrupt is pending or arrives; the steps after the first are whole passes, each a lone start attempt or a search followed by a sleep, one for each clock reading within 5000 ms of the start; the run stops at the first reading past it unless an interrupted sleep ends it first |
| DeviceManager.SearchThread.constructor | dlna-lib/src/main/java/com/android/dlna/manager/DLNADeviceManager.java:153-155 | a fresh thread, neither started nor interrupted |
| DeviceManager.DLNADeviceManager.constructor | dlna-lib/src/main/java/com/android/dlna/manager/DLNADeviceManager.java:31-37 | not started, empty list, no thread, no listener, no current device |
| DeviceManager.DLNADeviceManager.SetCurrentDevice | dlna-lib/src/main/java/com/android/dlna/manager/DLNADeviceManager.java:73-75 | the current device becomes `d` and nothing else changes |
| DeviceManager.DLNADeviceManager.GetCurrentDevice | dlna-lib/src/main/java/com/android/dlna/manager/DLNADeviceManager.java:77-79 | returns the current device, so it returns what `SetCurrentDevice` stored |
| DeviceManager.DLNADeviceManager.DeviceAdded | dlna-lib/src/main/java/com/android/dlna/manager/DLNADeviceManager.java:91-104 | a renderer is appended with one list-changed message; anything else changes nothing and sends nothing |
| DeviceManager.DLNADeviceManager.DeviceRemoved | dlna-lib/src/main/java/com/android/dlna/manager/DLNADeviceManager.java:107-123 | the first UDN match is removed with one message; the current device is cleared exactly when its UDN matches the removed one; with no match nothing changes |
| DeviceManager.DLNADeviceManager.StartDiscovery | dlna-lib/src/main/java/com/android/dlna/manager/DLNADeviceManager.java:128-137 | stores the listener; creates a thread only when there is none; queues one started message unless the thread was already started, which throws |
| DeviceManager.DLNADeviceManager.StopDiscovery | dlna-lib/src/main/java/com/android/dlna/manager/DLNADeviceManager.java:139-149 | interrupts the thread if any and stops the control point; `started` is untouched |
| DeviceManager.DLNADeviceManager.RunSearch | dlna-lib/src/main/java/com/android/dlna/manager/DLNADeviceManager.java:158-184 | `started` is the last start attempt's outcome, unchanged when the run makes none (it then begins with a search), and each attempt gets the control point's answer; the steps after the first are whole passes, each a lone start attempt or a search followed by a sleep, one per clock reading within 5000 ms of the start, and the run stops at the first reading past it or at an interrupted sleep; in the `finally`, only the thread that is still registered clears `mThread` and queues the finished message |
| DeviceManager.DLNADeviceManager.DispatchNext | dlna-lib/src/main/java/com/android/dlna/manager/DLNADeviceManager.java:38-60 | the oldest message is dropped without a listener, otherwise delivered; the list callback carries the list as it is at delivery |
| DeviceManager.IsMediaRenderDevice | dlna-lib/src/main/java/com/android/dlna/manager/DLNADeviceManager.java:188-192 | `isMediaRenderDevice`; it has no contract of its own: MediaRenderFilter and RendererIsMediaRenderDevice state what it accepts |
| DeviceManager.MediaRenderFilter | dlna-lib/src/main/java/com/android/dlna/manager/DLNADeviceManager.java:188-192 | a missing device is rejected; a device passes exactly when one whose type differs only in letter case does; a passing type has the MediaRenderer type's length |
| DeviceManager.RendererIsMediaRenderDevice | dlna-lib/src/main/java/com/android/dlna/manager/DLNADeviceManager.java:188-192 | a device of the MediaRenderer type passes the filter |
| DeviceManager.AddSameTwice | dlna-lib/src/main/java/com/android/dlna/manager/DLNADeviceManager.java:94-101 | the same renderer announced twice is listed twice |
| DeviceManager.ListDeliveredLive | dlna-lib/src/main/java/com/android/dlna/manager/DLNADeviceManager.java:48-52 | two additions deliver two list callbacks, both with the final two-device list |
| DeviceManager.RestartWhileSearching | dlna-lib/src/main/java/com/android/dlna/manager/DLNADeviceManager.java:131-135 | a second discovery while the first thread still runs throws and queues no second started message |
| PlayerView.FormatTimeSeconds | app/src/main/java/com/android/dlna/ControlPointView.java:172-189 | `formatTimeSeconds`; it has no contract of its own: FormatTimeSecondsPadded, FormatTimeSecondsUnpadded, FormatTimeSecondsFields and FormatTimeSecondsRoundTrip state what it produces |
| PlayerView.FormatTimeSecondsPadded | app/src/main/java/com/android/dlna/ControlPointView.java:172-185 | below ten minutes the label is two-digit minutes and two-digit seconds |
| PlayerView.FormatTimeSecondsUnpadded | app/src/main/java/com/android/dlna/ControlPointView.java:186-187 | from ten minutes on, the label is unpadded minutes and unpadded seconds |
| PlayerView.FormatTimeSecondsExample | app/src/main/java/com/android/dlna/ControlPointView.java:186-187 | 605 seconds read "10:5" |
| PlayerView.FormatTimeSecondsFields | app/src/main/java/com/android/dlna/ControlPointView.java:172-189 | every non-negative label is two digit fields holding `s/60` and `s%60` |
| PlayerView.FormatTimeSecondsRoundTrip | app/src/main/java/com/android/dlna/ControlPointView.java:172-189 | the controller's time parser reads every non-negative label back as the seconds it shows |
| PlayerView.ControlPointView.constructor | app/src/main/java/com/android/dlna/ControlPointView.java:52-83 | construction ends with `reset`'s state |
| PlayerView.ControlPointView.SetDuration | app/src/main/java/com/android/dlna/ControlPointView.java:89-95 | `totalDuration = t`, `currentDuration = 0`, the labels show both, and the seek bar maximum is `t` |
| PlayerView.ControlPointView.Reset | app/src/main/java/com/android/dlna/ControlPointView.java:110-118 | both durations are 0, both labels are the placeholder, the bar is reset and the button shows play |
| PlayerView.ControlPointView.UpdateProcess | app/src/main/java/com/android/dlna/ControlPointView.java:120-124 | `currentDuration` becomes the argument and nothing else about the durations changes |
| PlayerView.ControlPointView.UpdatePlayBtnStatus | app/src/main/java/com/android/dlna/ControlPointView.java:160-166 | the button shows pause exactly when playing |
| PlayerView.ControlPointView.GetCurrentDuration | app/src/main/java/com/android/dlna/ControlPointView.java:168-170 | returns `currentDuration`, which is what the current label shows |
| PlayerView.ShownProgressMatches | app/src/main/java/com/android/dlna/ControlPointView.java:120-124 | `updateProcess(x)` followed by `getCurrentDuration()` gives `x` |
| StartScreen.OnQueryTextSubmit | app/src/main/java/com/android/dlna/StartActivity.java:52-61 | accepted exactly when the query is non-empty and has a dot before its last character; an accepted query is passed on unchanged |
| StartScreen.QueryExamples | app/src/main/java/com/android/dlna/StartActivity.java:53 | "a.b." is accepted; "abc.", "" and "." are rejected |
| StartScreen.DotBeforeLast | app/src/main/java/com/android/dlna/StartActivity.java:53-57 | any dot before the last character is enough for acceptance |
| StartScreen.ExtensionLabel | app/src/main/java/com/android/dlna/StartActivity.java:87-92 | empty exactly when the address has no dot; otherwise the suffix that starts at the last dot |
| StartScreen.ExtensionOfName | app/src/main/java/com/android/dlna/StartActivity.java:87-92 | the label of `name.ext` is `.ext` when `ext` has no dot |
| StartScreen.ExtensionOfSuffix | app/src/main/java/com/android/dlna/StartActivity.java:87-92 | an address that ends in a dot followed by a dot-free `ext` has the label extension `.ext` |
| StartScreen.ItemLabel | app/src/main/java/com/android/dlna/StartActivity.java:86-94 | `onBindViewHolder`'s label; it has no contract of its own: its domain is the two sample entries, and FirstSampleLabel and SecondSampleLabel give its value on each, so together they fix it completely |
| StartScreen.FirstSampleLabel | app/src/main/java/com/android/dlna/StartActivity.java:86-94 | the first sample entry reads "视频0.mp4" |
| StartScreen.SecondSampleLabel | app/src/main/java/com/android/dlna/StartActivity.java:86-94 | the second sample entry reads "视频1.m3u8" |
| JavaText.IndexOf | app/src/main/java/com/android/dlna/StartActivity.java:53 | `String.indexOf`: the first position of the character, or -1 exactly when it is absent |
| JavaText.LastIndexOf | app/src/main/java/com/android/dlna/StartActivity.java:88 | `String.lastIndexOf`: the last position of the character, or -1 exactly when it is absent |
| JavaText.WrapInt32 | dlna-lib/src/main/java/com/android/dlna/player/control/MultiPointController.java:678-681 | Java `int` arithmetic: a value within the `int` range is kept as it is |
| JavaText.IntToString | dlna-lib/src/main/java/com/android/dlna/player/control/MultiPointController.java:699-704 | the decimal text of an `int`, a digit string for a non-negative value; IntToStringValue states that it reads back |
| JavaText.JavaIntValue | dlna-lib/src/main/java/com/android/dlna/player/control/MultiPointController.java:676-681 | `Integer.valueOf`'s value of a signed digit string; it has no contract of its own: IntToStringValue and the ParseTime lemmas state what it reads |
| JavaText.IsJavaIntLiteral | dlna-lib/src/main/java/com/android/dlna/player/control/MultiPointController.java:676-681 | the strings `Integer.valueOf` accepts without a `NumberFormatException`; it has no contract of its own: IntToStringValue states that every `int`'s text is one |
| JavaText.JavaSplit | dlna-lib/src/main/java/com/android/dlna/player/control/MultiPointController.java:671 | `String.split` on ':'; it has no contract of its own: ParseTimeOnlySeparators, ParseTimeTwoFields and ParseTimeThreeFields state how it splits |
| JavaText.EqualsIgnoreCase | dlna-lib/src/main/java/com/android/dlna/manager/DLNADeviceManager.java:96 | `equalsIgnoreCase` on ASCII text; it has no contract of its own: EqualsIgnoreCaseIsEquivalence and MediaRenderFilter state its properties |
| JavaText.IntToStringValue | dlna-lib/src/main/java/com/android/dlna/player/control/MultiPointController.java:699-704 | `Integer.valueOf` reads back the decimal text of every `int` |
| JavaText.EqualsIgnoreCaseIsEquivalence | dlna-lib/src/main/java/com/android/dlna/manager/DLNADeviceManager.java:96-115 | UDN matching up to case is an equivalence |

## Left out

- Threads, the main `Handler`, the executor and `synchronized`. Each command runs its worker half and its main-thread reaction in one step, so interleavings between commands, ticks and device callbacks are not modelled.
- The CyberGarage library: `ControlPoint`, `Device`, `Service`, `Action` and `postControlAction`. A device is the set of services and actions it advertises. The network is an oracle for each post's outcome and each returned argument, and the control point's `start`/`search`/`stop` calls become recorded steps.
- Argument values persisting on an `Action` between two posts are not modelled. Each invocation carries exactly the arguments set before it.
- `Integer.valueOf` throwing `NumberFormatException` on a non-numeric field is a precondition (`TimeParseable`, `TimeReadable`, `VolumeReadable`, `FollowUpReadable`). The crash on the worker or main thread is not modelled.
- Controller.MultiPointController.Tick: requires a device. In the code, a tick before any `play` dereferences a null `mDevice`.
- Null strings and null devices. Query answers, the transport state name and the device passed to `isMediaRenderDevice` are `Option` values. `play`'s path, the submitted query and the text `format(String)` reads are plain strings, with null folded into the empty string: the code tests each of them with `TextUtils.isEmpty`, which treats null and "" alike. No other string is ever null in the model.
- Non-ASCII digits in `Integer.valueOf`, non-ASCII case folding in `equalsIgnoreCase`, and locale digits in `String.format`. The model uses ASCII throughout.
- `ArrayList.remove(Object)` is taken as removing the entry the scan stopped at. This assumes `Device` equality is identity, so no earlier entry equals it.
- Android widgets: `SeekBar` clamping of its progress, text views, toasts, `Toast`, and the `Intent` that opens the control screen. The view keeps the values it hands to the widgets.
- `PlayerMonitor.onComplete` and `onPlayItemChanged`, which the controller never calls.
- The singleton `getInstance`, logging and `System.out` output.
- The elapsed-time clock, `Thread.sleep(300)` and interruption become parameters of the search run: the clock readings, the start results and which sleeps are interrupted.
- StartScreen.ItemLabel: its value is proved entry by entry, for the two sample entries that make up its whole domain, rather than by one general lemma. Clicking an entry to open the control screen with its address is not modelled, and neither is a proof that the sample addresses pass the query check.
- The `isPlaying()`/`isPaused()` getters are the class's fields. The control screen's play button (`ControlPointActivity.onPlayBtnClicked`, which pauses when playing, resumes when paused and plays otherwise) is not part of this model.
