/**
 * `MultiPointController`: the player-facing controller. Each public command
 * runs its synchronous half (module ControlActions) and then, on the main
 * thread and only when a `PlayerMonitor` is set, reacts to the result: it
 * updates `isPlaying` / `isPaused`, reports to the monitor, and schedules or
 * cancels the once-a-second progress message.
 *
 * Here a command runs to completion in one call: the worker's `*Sync` result
 * and the main thread's reaction to it happen together. The reactions are
 * pure functions of the state before and the result (`On...Result`); the
 * class's methods apply them.
 */
module Controller {
  import opened JavaText
  import opened Upnp
  import opened TimeCodec
  import opened TransportState
  import opened ControlActions

  /** The `PlayerMonitor` callbacks, in the order they are delivered. */
  datatype PlayerEvent =
    | OnPreparing
    | OnGetMediaDuration(totalTimeSeconds: int)
    | OnGetMaxVolume(max: int)
    | OnMuteStatusChanged(mute: bool)
    | OnVolumeChanged(current: int)
    | OnPlay
    | OnPause
    | OnStop
    | OnError
    | OnProgressUpdated(currentTimeSeconds: int)
    | OnSeekComplete

  /** The queries the play reaction hands to the worker pool after a successful play. */
  datatype FollowUp = MediaDurationQuery(device: Device) | MaxVolumeQuery(device: Device) | VolumeQuery(device: Device)

  /**
   * The controller's flags: `polling` says that an `MSG_UPDATE_PROGRESS`
   * message is waiting on the main handler.
   */
  datatype Status = Status(isPlaying: bool, isPaused: bool, polling: bool)

  /** A main-thread reaction: the new flags and the callbacks delivered. */
  datatype Reaction = Reaction(status: Status, events: seq<PlayerEvent>)

  const NOT_IMPLEMENTED := "NOT_IMPLEMENTED"

  /** `TextUtils.isEmpty`: `null` or the empty string. */
  predicate IsEmptyText(s: Option<string>)
  {
    s.None? || s.value == ""
  }

  /** A time value the progress and duration reactions read without a `NumberFormatException`. */
  predicate TimeReadable(ret: Option<string>)
  {
    IsEmptyText(ret) || ret.value == NOT_IMPLEMENTED || TimeParseable(ret.value)
  }

  /** A volume bound `getMaxVolumeValue`'s reaction reads without a `NumberFormatException`. */
  predicate VolumeReadable(ret: Option<string>)
  {
    IsEmptyText(ret) || IsJavaIntLiteral(ret.value)
  }

  /** The seconds a non-empty time value stands for; "NOT_IMPLEMENTED" counts as -1. */
  function ReportedSeconds(s: string): (r: int32)
    requires s != "" && (s == NOT_IMPLEMENTED || TimeParseable(s))
    ensures s == NOT_IMPLEMENTED ==> r == -1
    ensures s != NOT_IMPLEMENTED ==> r == ParseTime(s)
  {
    if s == NOT_IMPLEMENTED then -1 else ParseTime(s)
  }

  // ------------------------------------------------------------ reactions

  /** The play reaction: only `isPlaying` follows the result; `isPaused` and polling are left alone. */
  function OnPlayResult(st: Status, ret: bool): (r: Reaction)
    ensures r.status.isPlaying == ret
    ensures r.status.isPaused == st.isPaused && r.status.polling == st.polling
    ensures r.events == [if ret then OnPlay else OnError]
  {
    Reaction(st.(isPlaying := ret), [if ret then OnPlay else OnError])
  }

  /** The resume reaction: exactly one of playing and paused holds, and polling runs exactly when playing. */
  function OnResumeResult(st: Status, ret: bool): (r: Reaction)
    ensures r.status.isPlaying != r.status.isPaused
    ensures r.status.isPlaying == ret && r.status.polling == ret
    ensures r.events == [if ret then OnPlay else OnError]
  {
    Reaction(Status(ret, !ret, ret), [if ret then OnPlay else OnError])
  }

  /**
   * The pause reaction: exactly one of playing and paused holds afterwards,
   * so a failed pause marks the controller as playing whatever it was
   * before. Polling stops on success.
   */
  function OnPauseResult(st: Status, ret: bool): (r: Reaction)
    ensures r.status.isPlaying != r.status.isPaused
    ensures r.status.isPaused == ret
    ensures r.status.polling == (!ret && st.polling)
    ensures r.events == [if ret then OnPause else OnError]
  {
    Reaction(Status(!ret, ret, if ret then false else st.polling), [if ret then OnPause else OnError])
  }

  /**
   * The stop reaction: a successful stop clears both flags and polling; a
   * failed one leaves every flag as it was. Neither sets a flag.
   */
  function OnStopResult(st: Status, ret: bool): (r: Reaction)
    ensures ret ==> !r.status.isPlaying && !r.status.isPaused && !r.status.polling
    ensures !ret ==> r.status == st
    ensures (r.status.isPlaying ==> st.isPlaying) && (r.status.isPaused ==> st.isPaused)
    ensures r.events == [if ret then OnStop else OnError]
  {
    var playing := if st.isPlaying then !ret else st.isPlaying;
    var paused := if st.isPaused then !ret else st.isPaused;
    Reaction(Status(playing, paused, if ret then false else st.polling), [if ret then OnStop else OnError])
  }

  /** The seek reaction: polling runs again exactly when the seek succeeded. */
  function OnSeekResult(st: Status, ret: bool): (r: Reaction)
    ensures r.status == st.(polling := ret)
    ensures r.events == [if ret then OnSeekComplete else OnError]
  {
    Reaction(st.(polling := ret), [if ret then OnSeekComplete else OnError])
  }

  /**
   * The position reaction: an empty result is an error; otherwise the
   * position is reported and a negative one (including "NOT_IMPLEMENTED")
   * stops polling.
   */
  function OnPositionResult(st: Status, ret: Option<string>): (r: Reaction)
    requires TimeReadable(ret)
    ensures r.status.isPlaying == st.isPlaying && r.status.isPaused == st.isPaused
    ensures IsEmptyText(ret) ==> r == Reaction(st, [OnError])
    ensures !IsEmptyText(ret) ==>
      r.events == [OnProgressUpdated(ReportedSeconds(ret.value))] &&
      r.status.polling == (st.polling && ReportedSeconds(ret.value) >= 0)
  {
    if IsEmptyText(ret) then Reaction(st, [OnError])
    else
      var process := ReportedSeconds(ret.value);
      Reaction(if process < 0 then st.(polling := false) else st, [OnProgressUpdated(process)])
  }

  /**
   * The duration reaction: an empty result is an error and changes nothing;
   * otherwise the duration is reported and polling runs exactly when it is
   * positive.
   */
  function OnDurationResult(st: Status, ret: Option<string>): (r: Reaction)
    requires TimeReadable(ret)
    ensures r.status.isPlaying == st.isPlaying && r.status.isPaused == st.isPaused
    ensures IsEmptyText(ret) ==> r == Reaction(st, [OnError])
    ensures !IsEmptyText(ret) ==>
      r.events == [OnGetMediaDuration(ReportedSeconds(ret.value))] &&
      r.status.polling == (ReportedSeconds(ret.value) > 0)
  {
    if IsEmptyText(ret) then Reaction(st, [OnError])
    else
      var duration := ReportedSeconds(ret.value);
      Reaction(st.(polling := duration > 0), [OnGetMediaDuration(duration)])
  }

  /** The minimum-volume reaction reports nothing but an error. */
  function OnMinVolumeResult(st: Status, value: Option<string>): (r: Reaction)
    ensures r.status == st
    ensures r.events == if IsEmptyText(value) then [OnError] else []
  {
    Reaction(st, if IsEmptyText(value) then [OnError] else [])
  }

  /** The maximum-volume reaction reports the bound read as an `int`. */
  function OnMaxVolumeResult(st: Status, value: Option<string>): (r: Reaction)
    requires VolumeReadable(value)
    ensures r.status == st
    ensures IsEmptyText(value) ==> r.events == [OnError]
    ensures !IsEmptyText(value) ==> r.events == [OnGetMaxVolume(JavaIntValue(value.value))]
  {
    Reaction(st, if IsEmptyText(value) then [OnError] else [OnGetMaxVolume(JavaIntValue(value.value))])
  }

  /** The set-mute reaction: nothing at all is reported when the post failed. */
  function OnSetMuteResult(st: Status, ret: bool, mute: bool): (r: Reaction)
    ensures r.status == st
    ensures r.events == if ret then [OnMuteStatusChanged(mute)] else []
  {
    Reaction(st, if ret then [OnMuteStatusChanged(mute)] else [])
  }

  /** The get-mute reaction: muted exactly when the renderer answered "1". */
  function OnGetMuteResult(st: Status, ret: Option<string>): (r: Reaction)
    ensures r.status == st
    ensures IsEmptyText(ret) ==> r.events == [OnError]
    ensures !IsEmptyText(ret) ==> r.events == [OnMuteStatusChanged(ret.value == "1")]
  {
    Reaction(st, if IsEmptyText(ret) then [OnError] else [OnMuteStatusChanged(ret.value == "1")])
  }

  /** The set-volume reaction reports the requested volume on success. */
  function OnSetVolumeResult(st: Status, ret: bool, volume: int): (r: Reaction)
    ensures r.status == st
    ensures r.events == [if ret then OnVolumeChanged(volume) else OnError]
  {
    Reaction(st, [if ret then OnVolumeChanged(volume) else OnError])
  }

  /** The get-volume reaction reports whatever came back, -1 for a failure included. */
  function OnGetVolumeResult(st: Status, ret: int32): (r: Reaction)
    ensures r.status == st && r.events == [OnVolumeChanged(ret)]
  {
    Reaction(st, [OnVolumeChanged(ret)])
  }

  /** The queries the play reaction starts after a successful play, in order. */
  function PlayFollowUps(d: Device): seq<FollowUp>
  {
    [MediaDurationQuery(d), MaxVolumeQuery(d), VolumeQuery(d)]
  }

  /** The gateway's answer to a follow-up query is one its reaction can read. */
  predicate FollowUpReadable(gw: Gateway, q: FollowUp)
  {
    match q
    case MediaDurationQuery(d) => TimeReadable(GetMediaDurationSync(gw, d).value)
    case MaxVolumeQuery(d) => VolumeReadable(GetVolumeRangeSync(gw, d, "MaxValue").value)
    case VolumeQuery(_) => true
  }

  // ---------------------------------------------------------- properties

  /**
   * Play after a successful pause leaves `isPaused` set next to `isPlaying`:
   * the play reaction does not clear it.
   */
  lemma PlayAfterPauseKeepsPaused(st: Status)
    ensures var paused := OnPauseResult(st, true).status;
      OnPlayResult(paused, true).status.isPlaying && OnPlayResult(paused, true).status.isPaused
  {
  }

  /** Only a successful resume, a successful seek or a positive duration start polling. */
  lemma PollingStarters(st: Status, ret: bool, value: Option<string>)
    requires !st.polling && TimeReadable(value)
    ensures !OnPlayResult(st, ret).status.polling
    ensures !OnPauseResult(st, ret).status.polling
    ensures !OnStopResult(st, ret).status.polling
    ensures !OnPositionResult(st, value).status.polling
    ensures OnResumeResult(st, ret).status.polling == ret
    ensures OnSeekResult(st, ret).status.polling == ret
    ensures OnDurationResult(st, value).status.polling
      <==> !IsEmptyText(value) && ReportedSeconds(value.value) > 0
  {
  }

  /** A renderer that answers `NOT_IMPLEMENTED` for `AbsTime` ends polling at the next tick's reaction. */
  lemma NotImplementedStopsPolling(st: Status)
    ensures !OnPositionResult(st, Some(NOT_IMPLEMENTED)).status.polling
    ensures OnPositionResult(st, Some(NOT_IMPLEMENTED)).events == [OnProgressUpdated(-1)]
  {
  }

  /**
   * A renderer without the position action, or one whose position post
   * fails, only gets an error reported: the flags are kept, so the tick
   * that was already queued goes on polling.
   */
  lemma MissingPositionKeepsPolling(gw: Gateway, d: Device, st: Status)
    requires !(Supports(d, PositionInfoCall()) && gw.post(PositionInfoCall()))
    ensures OnPositionResult(st, GetPositionInfoSync(gw, d).value) == Reaction(st, [OnError])
    ensures OnPositionResult(st, GetPositionInfoSync(gw, d).value).status.polling == st.polling
  {
  }

  // ----------------------------------------------------------- the class

  class MultiPointController {
    /** `playerMonitor != null`. */
    var hasMonitor: bool
    /** `mDevice`: the device of the last `play`. */
    var device: Option<Device>
    var isPlaying: bool
    var isPaused: bool
    /** An `MSG_UPDATE_PROGRESS` message is queued on the main handler. */
    var polling: bool
    /** The callbacks delivered to the monitor so far. */
    var events: seq<PlayerEvent>
    /** Queries queued on the worker pool by the play reaction, not yet run. */
    var followUps: seq<FollowUp>
    /** Every invocation posted to a renderer so far. */
    var posted: seq<Invocation>

    function Flags(): Status
      reads this
    {
      Status(isPlaying, isPaused, polling)
    }

    /** With a monitor the reaction is applied; without one, nothing but the posted log changes. */
    predicate Reacted(monitor: bool, st0: Status, events0: seq<PlayerEvent>, rx: Reaction)
      reads this
    {
      if monitor then Flags() == rx.status && events == events0 + rx.events
      else Flags() == st0 && events == events0
    }

    constructor()
      ensures !hasMonitor && device == None
      ensures !isPlaying && !isPaused && !polling
      ensures events == [] && followUps == [] && posted == []
    {
      hasMonitor := false;
      device := None;
      isPlaying := false;
      isPaused := false;
      polling := false;
      events := [];
      followUps := [];
      posted := [];
    }

    method SetPlayMonitor(present: bool)
      modifies this
      ensures hasMonitor == present
      ensures device == old(device) && Flags() == old(Flags())
      ensures events == old(events) && followUps == old(followUps) && posted == old(posted)
    {
      hasMonitor := present;
    }

    /** Apply a reaction when a monitor is set. */
    method React(rx: Reaction)
      modifies this
      ensures Reacted(old(hasMonitor), old(Flags()), old(events), rx)
      ensures hasMonitor == old(hasMonitor) && device == old(device)
      ensures followUps == old(followUps) && posted == old(posted)
    {
      if hasMonitor {
        isPlaying, isPaused, polling := rx.status.isPlaying, rx.status.isPaused, rx.status.polling;
        events := events + rx.events;
      }
    }

    /**
     * `play`: remembers the device in every case; with a monitor, reports
     * preparing before the result and, on success, queues the duration,
     * maximum-volume and volume queries.
     */
    method Play(gw: Gateway, d: Device, path: string)
      modifies this
      ensures device == Some(d) && hasMonitor == old(hasMonitor)
      ensures posted == old(posted) + PlaySync(gw, d, path).posts
      ensures old(hasMonitor) ==>
        var rx := OnPlayResult(old(Flags()), PlaySync(gw, d, path).value);
        Flags() == rx.status && events == old(events) + [OnPreparing] + rx.events &&
        followUps == old(followUps) + (if PlaySync(gw, d, path).value then PlayFollowUps(d) else [])
      ensures !old(hasMonitor) ==>
        Flags() == old(Flags()) && events == old(events) && followUps == old(followUps)
    {
      device := Some(d);
      if hasMonitor {
        events := events + [OnPreparing];
      }
      var r := PlaySync(gw, d, path);
      posted := posted + r.posts;
      if hasMonitor {
        React(OnPlayResult(Flags(), r.value));
        if r.value {
          followUps := followUps + PlayFollowUps(d);
        }
      }
    }

    method Resume(gw: Gateway, d: Device, pausedTimeSeconds: int32)
      modifies this
      ensures Reacted(old(hasMonitor), old(Flags()), old(events), OnResumeResult(old(Flags()), ResumeSync(gw, d, pausedTimeSeconds).value))
      ensures posted == old(posted) + ResumeSync(gw, d, pausedTimeSeconds).posts
      ensures hasMonitor == old(hasMonitor) && device == old(device) && followUps == old(followUps)
    {
      var r := ResumeSync(gw, d, pausedTimeSeconds);
      posted := posted + r.posts;
      React(OnResumeResult(Flags(), r.value));
    }

    method Pause(gw: Gateway, d: Device)
      modifies this
      ensures Reacted(old(hasMonitor), old(Flags()), old(events), OnPauseResult(old(Flags()), PauseSync(gw, d).value))
      ensures posted == old(posted) + PauseSync(gw, d).posts
      ensures hasMonitor == old(hasMonitor) && device == old(device) && followUps == old(followUps)
    {
      var r := PauseSync(gw, d);
      posted := posted + r.posts;
      React(OnPauseResult(Flags(), r.value));
    }

    method Stop(gw: Gateway, d: Device)
      modifies this
      ensures Reacted(old(hasMonitor), old(Flags()), old(events), OnStopResult(old(Flags()), StopSync(gw, d).value))
      ensures posted == old(posted) + StopSync(gw, d).posts
      ensures hasMonitor == old(hasMonitor) && device == old(device) && followUps == old(followUps)
    {
      var r := StopSync(gw, d);
      posted := posted + r.posts;
      React(OnStopResult(Flags(), r.value));
    }

    /** `seek`: the target travels as `format(int)` renders it. */
    method Seek(gw: Gateway, d: Device, targetPosTimeSeconds: int32)
      modifies this
      ensures Reacted(old(hasMonitor), old(Flags()), old(events),
                      OnSeekResult(old(Flags()), SeekToSync(gw, d, FormatTime(targetPosTimeSeconds)).value))
      ensures posted == old(posted) + SeekToSync(gw, d, FormatTime(targetPosTimeSeconds)).posts
      ensures hasMonitor == old(hasMonitor) && device == old(device) && followUps == old(followUps)
    {
      var r := SeekToSync(gw, d, FormatTime(targetPosTimeSeconds));
      posted := posted + r.posts;
      React(OnSeekResult(Flags(), r.value));
    }

    /** `onSeekBegin`: drops the queued progress message, monitor or not. */
    method OnSeekBegin()
      modifies this
      ensures Flags() == old(Flags()).(polling := false)
      ensures hasMonitor == old(hasMonitor) && device == old(device)
      ensures events == old(events) && followUps == old(followUps) && posted == old(posted)
    {
      polling := false;
    }

    method GetPositionInfo(gw: Gateway, d: Device)
      requires TimeReadable(GetPositionInfoSync(gw, d).value)
      modifies this
      ensures Reacted(old(hasMonitor), old(Flags()), old(events), OnPositionResult(old(Flags()), GetPositionInfoSync(gw, d).value))
      ensures posted == old(posted) + GetPositionInfoSync(gw, d).posts
      ensures hasMonitor == old(hasMonitor) && device == old(device) && followUps == old(followUps)
    {
      var r := GetPositionInfoSync(gw, d);
      posted := posted + r.posts;
      React(OnPositionResult(Flags(), r.value));
    }

    method GetMediaDuration(gw: Gateway, d: Device)
      requires TimeReadable(GetMediaDurationSync(gw, d).value)
      modifies this
      ensures Reacted(old(hasMonitor), old(Flags()), old(events), OnDurationResult(old(Flags()), GetMediaDurationSync(gw, d).value))
      ensures posted == old(posted) + GetMediaDurationSync(gw, d).posts
      ensures hasMonitor == old(hasMonitor) && device == old(device) && followUps == old(followUps)
    {
      var r := GetMediaDurationSync(gw, d);
      posted := posted + r.posts;
      React(OnDurationResult(Flags(), r.value));
    }

    method GetMinVolumeValue(gw: Gateway, d: Device)
      modifies this
      ensures Reacted(old(hasMonitor), old(Flags()), old(events), OnMinVolumeResult(old(Flags()), GetVolumeRangeSync(gw, d, "MinValue").value))
      ensures posted == old(posted) + GetVolumeRangeSync(gw, d, "MinValue").posts
      ensures hasMonitor == old(hasMonitor) && device == old(device) && followUps == old(followUps)
    {
      var r := GetVolumeRangeSync(gw, d, "MinValue");
      posted := posted + r.posts;
      React(OnMinVolumeResult(Flags(), r.value));
    }

    method GetMaxVolumeValue(gw: Gateway, d: Device)
      requires VolumeReadable(GetVolumeRangeSync(gw, d, "MaxValue").value)
      modifies this
      ensures Reacted(old(hasMonitor), old(Flags()), old(events), OnMaxVolumeResult(old(Flags()), GetVolumeRangeSync(gw, d, "MaxValue").value))
      ensures posted == old(posted) + GetVolumeRangeSync(gw, d, "MaxValue").posts
      ensures hasMonitor == old(hasMonitor) && device == old(device) && followUps == old(followUps)
    {
      var r := GetVolumeRangeSync(gw, d, "MaxValue");
      posted := posted + r.posts;
      React(OnMaxVolumeResult(Flags(), r.value));
    }

    method SetMute(gw: Gateway, d: Device, mute: bool)
      modifies this
      ensures Reacted(old(hasMonitor), old(Flags()), old(events), OnSetMuteResult(old(Flags()), SetMuteSync(gw, d, mute).value, mute))
      ensures posted == old(posted) + SetMuteSync(gw, d, mute).posts
      ensures hasMonitor == old(hasMonitor) && device == old(device) && followUps == old(followUps)
    {
      var r := SetMuteSync(gw, d, mute);
      posted := posted + r.posts;
      React(OnSetMuteResult(Flags(), r.value, mute));
    }

    method GetMute(gw: Gateway, d: Device)
      modifies this
      ensures Reacted(old(hasMonitor), old(Flags()), old(events), OnGetMuteResult(old(Flags()), GetMuteSync(gw, d).value))
      ensures posted == old(posted) + GetMuteSync(gw, d).posts
      ensures hasMonitor == old(hasMonitor) && device == old(device) && followUps == old(followUps)
    {
      var r := GetMuteSync(gw, d);
      posted := posted + r.posts;
      React(OnGetMuteResult(Flags(), r.value));
    }

    method SetVolume(gw: Gateway, d: Device, volume: int32)
      modifies this
      ensures Reacted(old(hasMonitor), old(Flags()), old(events), OnSetVolumeResult(old(Flags()), SetVolumeSync(gw, d, volume).value, volume))
      ensures posted == old(posted) + SetVolumeSync(gw, d, volume).posts
      ensures hasMonitor == old(hasMonitor) && device == old(device) && followUps == old(followUps)
    {
      var r := SetVolumeSync(gw, d, volume);
      posted := posted + r.posts;
      React(OnSetVolumeResult(Flags(), r.value, volume));
    }

    method GetVolume(gw: Gateway, d: Device)
      modifies this
      ensures Reacted(old(hasMonitor), old(Flags()), old(events), OnGetVolumeResult(old(Flags()), GetVolumeSync(gw, d).value))
      ensures posted == old(posted) + GetVolumeSync(gw, d).posts
      ensures hasMonitor == old(hasMonitor) && device == old(device) && followUps == old(followUps)
    {
      var r := GetVolumeSync(gw, d);
      posted := posted + r.posts;
      React(OnGetVolumeResult(Flags(), r.value));
    }

    /** `getTransportState`: the state is computed and dropped; no flag and no callback change. */
    method GetTransportState(gw: Gateway, d: Device) returns (state: int)
      modifies this
      ensures state == GetTransportStateSync(gw, d).value
      ensures posted == old(posted) + GetTransportStateSync(gw, d).posts
      ensures Flags() == old(Flags()) && events == old(events)
      ensures hasMonitor == old(hasMonitor) && device == old(device) && followUps == old(followUps)
    {
      var r := GetTransportStateSync(gw, d);
      posted := posted + r.posts;
      state := r.value;
    }

    /** Run the oldest query the play reaction queued. */
    method RunFollowUp(gw: Gateway)
      requires followUps != [] && FollowUpReadable(gw, followUps[0])
      modifies this
      ensures followUps == old(followUps[1..])
      ensures hasMonitor == old(hasMonitor) && device == old(device)
      ensures match old(followUps[0])
        case MediaDurationQuery(d) =>
          Reacted(old(hasMonitor), old(Flags()), old(events), OnDurationResult(old(Flags()), GetMediaDurationSync(gw, d).value)) &&
          posted == old(posted) + GetMediaDurationSync(gw, d).posts
        case MaxVolumeQuery(d) =>
          Reacted(old(hasMonitor), old(Flags()), old(events), OnMaxVolumeResult(old(Flags()), GetVolumeRangeSync(gw, d, "MaxValue").value)) &&
          posted == old(posted) + GetVolumeRangeSync(gw, d, "MaxValue").posts
        case VolumeQuery(d) =>
          Reacted(old(hasMonitor), old(Flags()), old(events), OnGetVolumeResult(old(Flags()), GetVolumeSync(gw, d).value)) &&
          posted == old(posted) + GetVolumeSync(gw, d).posts
    {
      var q := followUps[0];
      followUps := followUps[1..];
      match q
      case MediaDurationQuery(d) => GetMediaDuration(gw, d);
      case MaxVolumeQuery(d) => GetMaxVolumeValue(gw, d);
      case VolumeQuery(d) => GetVolume(gw, d);
    }

    /**
     * The `MSG_UPDATE_PROGRESS` handler: drops the queued message, asks for
     * the position of the last played device and queues the next message a
     * second later, so polling goes on unless the position reaction stops
     * it.
     */
    method Tick(gw: Gateway)
      requires polling && device.Some?
      requires TimeReadable(GetPositionInfoSync(gw, device.value).value)
      modifies this
      ensures Reacted(old(hasMonitor), old(Flags()), old(events), OnPositionResult(old(Flags()), GetPositionInfoSync(gw, old(device).value).value))
      ensures posted == old(posted) + GetPositionInfoSync(gw, old(device).value).posts
      ensures hasMonitor == old(hasMonitor) && device == old(device) && followUps == old(followUps)
    {
      polling := false;
      var r := GetPositionInfoSync(gw, device.value);
      posted := posted + r.posts;
      polling := true;
      React(OnPositionResult(Flags(), r.value));
    }
  }

  // ----------------------------------------------------------- scenarios

  /** A renderer that advertises every action the controller uses. */
  function FullRenderer(): Device
  {
    Device("uuid:renderer", "Renderer", "urn:schemas-upnp-org:device:MediaRenderer:1",
      map[AV_TRANSPORT := {"SetAVTransportURI", "Play", "Pause", "Stop", "Seek", "GetTransportInfo", "GetPositionInfo", "GetMediaInfo"},
          RENDERING_CONTROL := {"GetVolumeDBRange", "SetMute", "GetMute", "SetVolume", "GetVolume"}])
  }

  /** A renderer that accepts every invocation and answers nothing. */
  function AcceptingGateway(): Gateway
  {
    Gateway((call: Invocation) => true, (call: Invocation, name: string) => None, (call: Invocation, name: string) => 0)
  }

  /** A renderer that refuses every invocation. */
  function RefusingGateway(): Gateway
  {
    Gateway((call: Invocation) => false, (call: Invocation, name: string) => None, (call: Invocation, name: string) => 0)
  }

  /** Pause, then play: the controller reports playing and paused at once. */
  method PauseThenPlay() returns (playing: bool, paused: bool)
    ensures playing && paused
  {
    var c := new MultiPointController();
    c.SetPlayMonitor(true);
    c.Pause(AcceptingGateway(), FullRenderer());
    c.Play(AcceptingGateway(), FullRenderer(), "http://host/video.mp4");
    playing, paused := c.isPlaying, c.isPaused;
  }

  /** A refused pause on a stopped controller marks it as playing and reports an error. */
  method RefusedPause() returns (playing: bool, paused: bool, events: seq<PlayerEvent>)
    ensures playing && !paused && events == [OnError]
  {
    var c := new MultiPointController();
    c.SetPlayMonitor(true);
    c.Pause(RefusingGateway(), FullRenderer());
    playing, paused, events := c.isPlaying, c.isPaused, c.events;
  }

  /** Without a monitor a successful play changes no flag, though it reaches the renderer. */
  method PlayWithoutMonitor() returns (playing: bool, sent: nat)
    ensures !playing && sent == 2
  {
    var c := new MultiPointController();
    c.Play(AcceptingGateway(), FullRenderer(), "http://host/video.mp4");
    playing, sent := c.isPlaying, |c.posted|;
  }
}
