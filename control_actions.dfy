/**
 * The synchronous halves of `MultiPointController`'s commands (its private
 * `*Sync` methods). Each one looks up a service and its action on the
 * device, gives up with a fixed failure value when either is missing, sets
 * the action's input arguments, posts it and reads an output argument.
 * Each is a function of the gateway and the device that returns its result
 * together with the invocations it posted.
 */
module ControlActions {
  import opened JavaText
  import opened Upnp
  import opened TimeCodec
  import opened TransportState

  // ------------------------------------------------------------ invocations

  /** `setArgumentValue("InstanceID", 0)` and `"0"` both send the text "0". */
  const INSTANCE := "0"
  const MASTER := "Master"

  function SetUriCall(path: string): Invocation
  {
    Invocation(AV_TRANSPORT, "SetAVTransportURI",
      map["InstanceID" := INSTANCE, "CurrentURI" := path, "CurrentURIMetaData" := "0"])
  }

  function PlayCall(): Invocation
  {
    Invocation(AV_TRANSPORT, "Play", map["InstanceID" := INSTANCE, "Speed" := "1"])
  }

  function SeekCall(unit: string, target: string): Invocation
  {
    Invocation(AV_TRANSPORT, "Seek", map["InstanceID" := INSTANCE, "Unit" := unit, "Target" := target])
  }

  function TransportInfoCall(): Invocation
  {
    Invocation(AV_TRANSPORT, "GetTransportInfo", map["InstanceID" := INSTANCE])
  }

  function PositionInfoCall(): Invocation
  {
    Invocation(AV_TRANSPORT, "GetPositionInfo", map["InstanceID" := INSTANCE])
  }

  function MediaInfoCall(): Invocation
  {
    Invocation(AV_TRANSPORT, "GetMediaInfo", map["InstanceID" := INSTANCE])
  }

  function PauseCall(): Invocation
  {
    Invocation(AV_TRANSPORT, "Pause", map["InstanceID" := INSTANCE])
  }

  function StopCall(): Invocation
  {
    Invocation(AV_TRANSPORT, "Stop", map["InstanceID" := INSTANCE])
  }

  function VolumeRangeCall(): Invocation
  {
    Invocation(RENDERING_CONTROL, "GetVolumeDBRange", map["InstanceID" := INSTANCE, "Channel" := MASTER])
  }

  function SetMuteCall(mute: bool): Invocation
  {
    Invocation(RENDERING_CONTROL, "SetMute",
      map["InstanceID" := INSTANCE, "Channel" := MASTER, "DesiredMute" := if mute then "1" else "0"])
  }

  function GetMuteCall(): Invocation
  {
    Invocation(RENDERING_CONTROL, "GetMute", map["InstanceID" := INSTANCE, "Channel" := MASTER])
  }

  function SetVolumeCall(volume: int32): Invocation
  {
    Invocation(RENDERING_CONTROL, "SetVolume",
      map["InstanceID" := INSTANCE, "Channel" := MASTER, "DesiredVolume" := IntToString(volume)])
  }

  function GetVolumeCall(): Invocation
  {
    Invocation(RENDERING_CONTROL, "GetVolume", map["InstanceID" := INSTANCE, "Channel" := MASTER])
  }

  /** The device advertises the action `call` names. */
  predicate Supports(d: Device, call: Invocation)
  {
    HasAction(d, call.service, call.action)
  }

  // ------------------------------------------------------- the two shapes

  /**
   * A command: post `call` when the device advertises it. The result is
   * true exactly when the action exists and its post succeeds.
   */
  function Command(gw: Gateway, d: Device, call: Invocation): (r: Posted<bool>)
    ensures Advertised(d, r.posts)
    ensures r.value <==> Supports(d, call) && gw.post(call)
    ensures r.posts == (if Supports(d, call) then [call] else [])
  {
    if Supports(d, call) then Posted(gw.post(call), [call]) else Posted(false, [])
  }

  /**
   * A query: post `call` and read the output argument `out`; `None` (Java
   * `null`) when the action is missing or the post fails.
   */
  function Query(gw: Gateway, d: Device, call: Invocation, out: string): (r: Posted<Option<string>>)
    ensures Advertised(d, r.posts)
    ensures r.posts == (if Supports(d, call) then [call] else [])
    ensures r.value.Some? ==> Supports(d, call) && gw.post(call) && gw.argument(call, out) == r.value
    ensures Supports(d, call) && gw.post(call) ==> r.value == gw.argument(call, out)
  {
    if Supports(d, call) && gw.post(call) then Posted(gw.argument(call, out), [call])
    else Posted(None, if Supports(d, call) then [call] else [])
  }

  // ------------------------------------------------------------- commands

  /**
   * `playSync`: both actions must exist and the path must be non-empty
   * before anything is posted; the URI is set first and Play is only posted
   * when that succeeded.
   */
  function PlaySync(gw: Gateway, d: Device, path: string): (r: Posted<bool>)
    ensures Advertised(d, r.posts)
    ensures r.value <==>
      Supports(d, SetUriCall(path)) && Supports(d, PlayCall()) && path != "" &&
      gw.post(SetUriCall(path)) && gw.post(PlayCall())
    ensures r.posts == [] <==> !(Supports(d, SetUriCall(path)) && Supports(d, PlayCall()) && path != "")
    ensures r.posts != [] ==> r.posts[0] == SetUriCall(path)
    ensures |r.posts| <= 2 && (|r.posts| == 2 <==> r.posts != [] && gw.post(SetUriCall(path)))
    ensures |r.posts| == 2 ==> r.posts[1] == PlayCall()
  {
    if !(Supports(d, SetUriCall(path)) && Supports(d, PlayCall()) && path != "") then Posted(false, [])
    else if !gw.post(SetUriCall(path)) then Posted(false, [SetUriCall(path)])
    else Posted(gw.post(PlayCall()), [SetUriCall(path), PlayCall()])
  }

  /**
   * `resumeSync`: seeks to the pause position (absolute time), ignoring
   * whether that seek succeeded, then posts Play. The result depends on
   * the Play post alone.
   */
  function ResumeSync(gw: Gateway, d: Device, pausePosition: int32): (r: Posted<bool>)
    ensures Advertised(d, r.posts)
    ensures r.value <==> Supports(d, SeekCall("ABS_TIME", FormatTime(pausePosition))) &&
                         Supports(d, PlayCall()) && gw.post(PlayCall())
    ensures r.posts == []
      <==> !Supports(d, SeekCall("ABS_TIME", FormatTime(pausePosition)))
    ensures r.posts != [] ==> r.posts[0] == SeekCall("ABS_TIME", FormatTime(pausePosition))
    ensures |r.posts| <= 2 && (|r.posts| == 2 <==> r.posts != [] && Supports(d, PlayCall()))
    ensures |r.posts| == 2 ==> r.posts[1] == PlayCall()
  {
    var seek := SeekCall("ABS_TIME", FormatTime(pausePosition));
    if !Supports(d, seek) then Posted(false, [])
    else if !Supports(d, PlayCall()) then Posted(false, [seek])
    else Posted(gw.post(PlayCall()), [seek, PlayCall()])
  }

  /**
   * `seekToSync`: seek by absolute time; when that post fails, the same
   * target is tried once more as relative time.
   */
  function SeekToSync(gw: Gateway, d: Device, target: string): (r: Posted<bool>)
    ensures Advertised(d, r.posts)
    ensures r.value <==> Supports(d, SeekCall("ABS_TIME", target)) &&
                         (gw.post(SeekCall("ABS_TIME", target)) || gw.post(SeekCall("REL_TIME", target)))
    ensures r.posts == [] <==> !Supports(d, SeekCall("ABS_TIME", target))
    ensures r.posts != [] ==> r.posts[0] == SeekCall("ABS_TIME", target)
    ensures |r.posts| <= 2 && (|r.posts| == 2 <==> r.posts != [] && !gw.post(SeekCall("ABS_TIME", target)))
    ensures |r.posts| == 2 ==> r.posts[1] == SeekCall("REL_TIME", target)
  {
    var abs := SeekCall("ABS_TIME", target);
    if !Supports(d, abs) then Posted(false, [])
    else if gw.post(abs) then Posted(true, [abs])
    else Posted(gw.post(SeekCall("REL_TIME", target)), [abs, SeekCall("REL_TIME", target)])
  }

  /** `pauseSync`. */
  function PauseSync(gw: Gateway, d: Device): (r: Posted<bool>)
    ensures Advertised(d, r.posts)
    ensures r.value <==> Supports(d, PauseCall()) && gw.post(PauseCall())
    ensures r.posts == (if Supports(d, PauseCall()) then [PauseCall()] else [])
  {
    Command(gw, d, PauseCall())
  }

  /** `stopSync`. */
  function StopSync(gw: Gateway, d: Device): (r: Posted<bool>)
    ensures Advertised(d, r.posts)
    ensures r.value <==> Supports(d, StopCall()) && gw.post(StopCall())
    ensures r.posts == (if Supports(d, StopCall()) then [StopCall()] else [])
  {
    Command(gw, d, StopCall())
  }

  /** `setMuteSync`: "1" to mute, "0" to unmute. */
  function SetMuteSync(gw: Gateway, d: Device, mute: bool): (r: Posted<bool>)
    ensures Advertised(d, r.posts)
    ensures r.value <==> Supports(d, SetMuteCall(mute)) && gw.post(SetMuteCall(mute))
    ensures r.posts == (if Supports(d, SetMuteCall(mute)) then [SetMuteCall(mute)] else [])
    ensures forall i :: 0 <= i < |r.posts| ==> "DesiredMute" in r.posts[i].args && r.posts[i].args["DesiredMute"] == (if mute then "1" else "0")
  {
    Command(gw, d, SetMuteCall(mute))
  }

  /** `setVolumeSync`: the volume travels as its decimal text. */
  function SetVolumeSync(gw: Gateway, d: Device, volume: int32): (r: Posted<bool>)
    ensures Advertised(d, r.posts)
    ensures r.value <==> Supports(d, SetVolumeCall(volume)) && gw.post(SetVolumeCall(volume))
    ensures r.posts == (if Supports(d, SetVolumeCall(volume)) then [SetVolumeCall(volume)] else [])
    ensures forall i :: 0 <= i < |r.posts| ==>
      "DesiredVolume" in r.posts[i].args && IsJavaIntLiteral(r.posts[i].args["DesiredVolume"]) && JavaIntValue(r.posts[i].args["DesiredVolume"]) == volume
  {
    IntToStringValue(volume);
    Command(gw, d, SetVolumeCall(volume))
  }

  // -------------------------------------------------------------- queries

  /**
   * `getTransportStateSync`: the reported state's code, `STATE_ERR` when
   * the action is missing, the post fails, or the state is not one of the
   * seven names.
   */
  function GetTransportStateSync(gw: Gateway, d: Device): (r: Posted<int>)
    ensures Advertised(d, r.posts)
    ensures STATE_STOPPED <= r.value <= STATE_ERR
    ensures r.posts == (if Supports(d, TransportInfoCall()) then [TransportInfoCall()] else [])
    ensures !(Supports(d, TransportInfoCall()) && gw.post(TransportInfoCall())) ==> r.value == STATE_ERR
    ensures Supports(d, TransportInfoCall()) && gw.post(TransportInfoCall()) ==>
      r.value == FormatTransportState(gw.argument(TransportInfoCall(), "CurrentTransportState"))
    ensures r.value != STATE_ERR ==>
      gw.argument(TransportInfoCall(), "CurrentTransportState") == Some(StateName(r.value))
  {
    var q := Query(gw, d, TransportInfoCall(), "CurrentTransportState");
    FormatTransportStateInverse(q.value);
    Posted(FormatTransportState(q.value), q.posts)
  }

  /** `getVolumeRangeSync(device, argument)`: one bound of the volume range. */
  function GetVolumeRangeSync(gw: Gateway, d: Device, argument: string): (r: Posted<Option<string>>)
    ensures Advertised(d, r.posts)
    ensures r.posts == (if Supports(d, VolumeRangeCall()) then [VolumeRangeCall()] else [])
    ensures r.value.Some? ==> Supports(d, VolumeRangeCall()) && gw.post(VolumeRangeCall()) && gw.argument(VolumeRangeCall(), argument) == r.value
    ensures Supports(d, VolumeRangeCall()) && gw.post(VolumeRangeCall()) ==> r.value == gw.argument(VolumeRangeCall(), argument)
  {
    Query(gw, d, VolumeRangeCall(), argument)
  }

  /** `getPositionInfoSync`: the `AbsTime` output. */
  function GetPositionInfoSync(gw: Gateway, d: Device): (r: Posted<Option<string>>)
    ensures Advertised(d, r.posts)
    ensures r.posts == (if Supports(d, PositionInfoCall()) then [PositionInfoCall()] else [])
    ensures r.value.Some? ==> Supports(d, PositionInfoCall()) && gw.post(PositionInfoCall()) && gw.argument(PositionInfoCall(), "AbsTime") == r.value
    ensures Supports(d, PositionInfoCall()) && gw.post(PositionInfoCall()) ==> r.value == gw.argument(PositionInfoCall(), "AbsTime")
  {
    Query(gw, d, PositionInfoCall(), "AbsTime")
  }

  /** `getMediaDurationSync`: the `MediaDuration` output of GetMediaInfo. */
  function GetMediaDurationSync(gw: Gateway, d: Device): (r: Posted<Option<string>>)
    ensures Advertised(d, r.posts)
    ensures r.posts == (if Supports(d, MediaInfoCall()) then [MediaInfoCall()] else [])
    ensures r.value.Some? ==> Supports(d, MediaInfoCall()) && gw.post(MediaInfoCall()) && gw.argument(MediaInfoCall(), "MediaDuration") == r.value
    ensures Supports(d, MediaInfoCall()) && gw.post(MediaInfoCall()) ==> r.value == gw.argument(MediaInfoCall(), "MediaDuration")
  {
    Query(gw, d, MediaInfoCall(), "MediaDuration")
  }

  /**
   * `getMuteSync`: unlike the other queries it reads `CurrentMute` whether
   * or not the post succeeded.
   */
  function GetMuteSync(gw: Gateway, d: Device): (r: Posted<Option<string>>)
    ensures Advertised(d, r.posts)
    ensures r.posts == (if Supports(d, GetMuteCall()) then [GetMuteCall()] else [])
    ensures r.value == if Supports(d, GetMuteCall()) then gw.argument(GetMuteCall(), "CurrentMute") else None
  {
    if Supports(d, GetMuteCall()) then Posted(gw.argument(GetMuteCall(), "CurrentMute"), [GetMuteCall()])
    else Posted(None, [])
  }

  /** `getVolumeSync`: the `CurrentVolume` output, -1 on any failure. */
  function GetVolumeSync(gw: Gateway, d: Device): (r: Posted<int32>)
    ensures Advertised(d, r.posts)
    ensures r.posts == (if Supports(d, GetVolumeCall()) then [GetVolumeCall()] else [])
    ensures Supports(d, GetVolumeCall()) && gw.post(GetVolumeCall()) ==> r.value == gw.integerArgument(GetVolumeCall(), "CurrentVolume")
    ensures !(Supports(d, GetVolumeCall()) && gw.post(GetVolumeCall())) ==> r.value == -1
  {
    if Supports(d, GetVolumeCall()) && gw.post(GetVolumeCall()) then
      Posted(gw.integerArgument(GetVolumeCall(), "CurrentVolume"), [GetVolumeCall()])
    else Posted(-1, if Supports(d, GetVolumeCall()) then [GetVolumeCall()] else [])
  }

  // ---------------------------------------------------------- properties

  /** Two gateways that agree on every post except the Seek ones. */
  ghost predicate AgreeExceptSeek(g1: Gateway, g2: Gateway)
  {
    forall call: Invocation :: call.action != "Seek" ==> g1.post(call) == g2.post(call)
  }

  /** The outcome of the resume seek never changes what resume reports or what it posts. */
  lemma ResumeIgnoresSeekOutcome(g1: Gateway, g2: Gateway, d: Device, pausePosition: int32)
    requires AgreeExceptSeek(g1, g2)
    ensures ResumeSync(g1, d, pausePosition) == ResumeSync(g2, d, pausePosition)
  {
    assert PlayCall().action != "Seek";
  }

  /** Play never posts the Play action on a failed URI change. */
  lemma PlayNeedsUri(gw: Gateway, d: Device, path: string)
    requires !gw.post(SetUriCall(path))
    ensures PlayCall() !in PlaySync(gw, d, path).posts
    ensures !PlaySync(gw, d, path).value
  {
    assert SetUriCall(path) != PlayCall();
  }

  /** Seek posts the relative-time fallback exactly when the absolute-time seek failed. */
  lemma SeekFallsBackOnce(gw: Gateway, d: Device, target: string)
    ensures SeekCall("REL_TIME", target) in SeekToSync(gw, d, target).posts
      <==> Supports(d, SeekCall("ABS_TIME", target)) && !gw.post(SeekCall("ABS_TIME", target))
  {
    assert SeekCall("REL_TIME", target) != SeekCall("ABS_TIME", target) by {
      assert SeekCall("REL_TIME", target).args["Unit"] != SeekCall("ABS_TIME", target).args["Unit"];
    }
  }
}
