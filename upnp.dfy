/**
 * What the control point sees of the UPnP library: a device record (its
 * identity, type and advertised services with their actions), one remote
 * action invocation, and the gateway that answers invocations. The gateway
 * is an oracle: the success of each `postControlAction` and the value of
 * each returned argument are given, not computed.
 */
module Upnp {
  import opened JavaText

  const AV_TRANSPORT := "urn:schemas-upnp-org:service:AVTransport:1"
  const RENDERING_CONTROL := "urn:schemas-upnp-org:service:RenderingControl:1"

  /** A discovered device: `services` maps each advertised service type to its action names. */
  datatype Device = Device(udn: string, friendlyName: string, deviceType: string, services: map<string, set<string>>)

  /** `device.getService(service) != null`. */
  predicate HasService(d: Device, service: string)
  {
    service in d.services
  }

  /** `device.getService(service).getAction(action) != null`. */
  predicate HasAction(d: Device, service: string, action: string)
  {
    service in d.services && action in d.services[service]
  }

  /** One `postControlAction`: the action and the input arguments set on it. */
  datatype Invocation = Invocation(service: string, action: string, args: map<string, string>)

  /**
   * The remote side. `post` says whether an invocation succeeds,
   * `argument` what `getArgumentValue` returns afterwards (`None` for
   * `null`), `integerArgument` what `getArgumentIntegerValue` returns.
   */
  datatype Gateway = Gateway(
    post: Invocation -> bool,
    argument: (Invocation, string) -> Option<string>,
    integerArgument: (Invocation, string) -> int32)

  /** What a command returns, with the invocations it posted, in order. */
  datatype Posted<T> = Posted(value: T, posts: seq<Invocation>)

  /** Every posted invocation names an action the device advertises. */
  predicate Advertised(d: Device, posts: seq<Invocation>)
  {
    forall i :: 0 <= i < |posts| ==> HasAction(d, posts[i].service, posts[i].action)
  }
}
