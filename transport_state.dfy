/**
 * The AVTransport state vocabulary and the integer codes `IController`
 * declares for it; `formatTransportState` maps one to the other.
 */
module TransportState {
  import opened JavaText

  const STATE_STOPPED := 0x01
  const STATE_PLAYING := 0x02
  const STATE_TRANSITIONING := 0x03
  const STATE_PAUSED_PLAYBACK := 0x04
  const STATE_PAUSED_RECORDING := 0x05
  const STATE_RECORDING := 0x06
  const STATE_NO_MEDIA_PRESENT := 0x07
  const STATE_ERR := 0x08

  /**
   * `formatTransportState`: exact, case-sensitive comparison against the
   * seven state names; anything else, an absent value (`null`) included, is
   * `STATE_ERR`.
   */
  function FormatTransportState(value: Option<string>): (r: int)
    ensures STATE_STOPPED <= r <= STATE_ERR
    ensures value.None? ==> r == STATE_ERR
  {
    if value == Some("STOPPED") then STATE_STOPPED
    else if value == Some("PLAYING") then STATE_PLAYING
    else if value == Some("TRANSITIONING") then STATE_TRANSITIONING
    else if value == Some("PAUSED_PLAYBACK") then STATE_PAUSED_PLAYBACK
    else if value == Some("PAUSED_RECORDING") then STATE_PAUSED_RECORDING
    else if value == Some("RECORDING") then STATE_RECORDING
    else if value == Some("NO_MEDIA_PRESENT") then STATE_NO_MEDIA_PRESENT
    else STATE_ERR
  }

  /** The state name each code other than `STATE_ERR` stands for. */
  function StateName(code: int): string
    requires STATE_STOPPED <= code < STATE_ERR
  {
    ["STOPPED", "PLAYING", "TRANSITIONING", "PAUSED_PLAYBACK",
     "PAUSED_RECORDING", "RECORDING", "NO_MEDIA_PRESENT"][code - 1]
  }

  /** Each name maps to its own code, so the seven codes are distinct. */
  lemma StateNameRoundTrip(code: int)
    requires STATE_STOPPED <= code < STATE_ERR
    ensures FormatTransportState(Some(StateName(code))) == code
  {
  }

  /** A code other than `STATE_ERR` comes from exactly one value: its state name. */
  lemma FormatTransportStateInverse(value: Option<string>)
    ensures FormatTransportState(value) != STATE_ERR ==> value == Some(StateName(FormatTransportState(value)))
  {
  }

  /** The comparison is case-sensitive. */
  lemma FormatTransportStateCaseSensitive()
    ensures FormatTransportState(Some("playing")) == STATE_ERR
    ensures FormatTransportState(Some("Stopped")) == STATE_ERR
  {
  }
}
