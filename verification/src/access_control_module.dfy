/** The access-control module of the agent API: reading and setting the
    access mode of a feature, answering confirmation requests, and passing
    the channel's notifications on to the host.

    Whether the agent connection is alive and what the channel returns are
    parameters; each operation returns the channel call it made, if any. */
module AccessControlModule {
  import opened Wrappers
  import Com = AccessControlService

  /** `IAccessControlModule::Feature`; a host can pass any integer. */
  datatype Feature = FileTransfer | RemoteView | RemoteControl | UnlistedFeature(raw: int)

  /** `IAccessControlModule::Access`. */
  datatype Access = Allowed | AfterConfirmation | Denied | UnlistedAccess(raw: int)

  function FeatureFromCommunication(c: Com.Feature): (r: Option<Feature>)
    ensures r.Some? ==> !r.value.UnlistedFeature?
  {
    match c
    case FileTransfer => Some(FileTransfer)
    case RemoteView => Some(RemoteView)
    case RemoteControl => Some(RemoteControl)
    case ScreenRecording => None
    case UnlistedFeature(_) => None
  }

  function FeatureToCommunication(f: Feature): (r: Option<Com.Feature>)
    ensures r.Some? <==> !f.UnlistedFeature?
  {
    match f
    case FileTransfer => Some(Com.FileTransfer)
    case RemoteView => Some(Com.RemoteView)
    case RemoteControl => Some(Com.RemoteControl)
    case UnlistedFeature(_) => None
  }

  function AccessFromCommunication(c: Com.Access): (r: Option<Access>)
    ensures r.Some? <==> !c.UnlistedAccess?
    ensures r.Some? ==> !r.value.UnlistedAccess?
  {
    match c
    case Allowed => Some(Allowed)
    case AfterConfirmation => Some(AfterConfirmation)
    case Denied => Some(Denied)
    case UnlistedAccess(_) => None
  }

  function AccessToCommunication(a: Access): (r: Option<Com.Access>)
    ensures r.Some? <==> !a.UnlistedAccess?
  {
    match a
    case Allowed => Some(Com.Allowed)
    case AfterConfirmation => Some(Com.AfterConfirmation)
    case Denied => Some(Com.Denied)
    case UnlistedAccess(_) => None
  }

  /** The conversions are inverse where both are defined: every API feature
      and access level survives the trip to the channel and back, and so does
      every channel value that converts at all. Remote view travels as the
      channel's RemoteView; ScreenRecording has no API counterpart. */
  lemma ConversionsRoundTrip(f: Feature, a: Access, cf: Com.Feature, ca: Com.Access)
    ensures !f.UnlistedFeature? ==> FeatureFromCommunication(FeatureToCommunication(f).value) == Some(f)
    ensures !a.UnlistedAccess? ==> AccessFromCommunication(AccessToCommunication(a).value) == Some(a)
    ensures FeatureFromCommunication(cf).Some? ==> FeatureToCommunication(FeatureFromCommunication(cf).value) == Some(cf)
    ensures AccessFromCommunication(ca).Some? ==> AccessToCommunication(AccessFromCommunication(ca).value) == Some(ca)
    ensures FeatureToCommunication(RemoteView) == Some(Com.RemoteView)
    ensures FeatureFromCommunication(Com.ScreenRecording) == None
  {
  }

  /** The calls the module makes on the channel. */
  datatype ChannelCall =
    | GetAccessMode(feature: Com.Feature)
    | SetAccessMode(feature: Com.Feature, access: Com.Access)
    | ConfirmationReply(feature: Com.Feature, confirmed: bool)

  /** `getAccess`: false with no call if the connection expired or the
      feature does not convert; otherwise the channel is asked, and the
      output parameter (which starts as `prior`) is written only when the
      call succeeded (`reply` holds its answer) and the answer converts. */
  function GetAccess(f: Feature, alive: bool, reply: Option<Com.Access>, prior: Access)
    : (r: (bool, Access, Option<ChannelCall>))
    ensures r.2.Some? <==> alive && !f.UnlistedFeature?
    ensures r.2.Some? ==> r.2.value == GetAccessMode(FeatureToCommunication(f).value)
    ensures r.0 <==> r.2.Some? && reply.Some? && !reply.value.UnlistedAccess?
    ensures !r.0 ==> r.1 == prior
    ensures r.0 ==> AccessToCommunication(r.1) == Some(reply.value)
  {
    if !alive || FeatureToCommunication(f).None? then (false, prior, None)
    else
      var call := GetAccessMode(FeatureToCommunication(f).value);
      if reply.None? then (false, prior, Some(call))
      else match AccessFromCommunication(reply.value)
        case None => (false, prior, Some(call))
        case Some(a) => (true, a, Some(call))
  }

  /** `setAccess`: false with no call if the connection expired or either
      argument does not convert; otherwise the channel's answer. */
  function SetAccess(f: Feature, a: Access, alive: bool, channelOk: bool): (r: (bool, Option<ChannelCall>))
    ensures r.1.Some? <==> alive && !f.UnlistedFeature? && !a.UnlistedAccess?
    ensures r.0 <==> r.1.Some? && channelOk
    ensures r.1.Some? ==> (r.1.value.SetAccessMode?
      && FeatureFromCommunication(r.1.value.feature) == Some(f) && AccessFromCommunication(r.1.value.access) == Some(a))
  {
    if !alive || FeatureToCommunication(f).None? || AccessToCommunication(a).None? then (false, None)
    else (channelOk, Some(SetAccessMode(FeatureToCommunication(f).value, AccessToCommunication(a).value)))
  }

  /** `acceptAccessRequest` (`allowed`) and `rejectAccessRequest`
      (`!allowed`): the reply is sent only for a live connection and a
      convertible feature. */
  function Reply(f: Feature, allowed: bool, alive: bool, channelOk: bool): (r: (bool, Option<ChannelCall>))
    ensures r.1.Some? <==> alive && !f.UnlistedFeature?
    ensures r.0 <==> r.1.Some? && channelOk
    ensures r.1.Some? ==> (r.1.value.ConfirmationReply? && r.1.value.confirmed == allowed
      && FeatureFromCommunication(r.1.value.feature) == Some(f))
  {
    if alive && FeatureToCommunication(f).Some? then
      (channelOk, Some(ConfirmationReply(FeatureToCommunication(f).value, allowed)))
    else (false, None)
  }

  /** What reaches the host's callbacks. */
  datatype HostEvent = AccessChanged(feature: Feature, access: Access) | AccessRequested(feature: Feature)

  /** An access-mode change: dropped unless both values convert. */
  function OnAccessChanged(cf: Com.Feature, ca: Com.Access): (r: Option<HostEvent>)
    ensures r.Some? <==> FeatureFromCommunication(cf).Some? && AccessFromCommunication(ca).Some?
    ensures r.Some? ==> (r.value.AccessChanged?
      && FeatureToCommunication(r.value.feature) == Some(cf) && AccessToCommunication(r.value.access) == Some(ca))
  {
    match (FeatureFromCommunication(cf), AccessFromCommunication(ca))
    case (Some(f), Some(a)) =>
      ConversionsRoundTrip(f, a, cf, ca);
      Some(AccessChanged(f, a))
    case _ => None
  }

  /** A confirmation request: dropped unless the feature converts; the
      timeout is not passed on. */
  function OnAccessRequested(cf: Com.Feature, timeout: nat): (r: Option<HostEvent>)
    ensures r.Some? <==> FeatureFromCommunication(cf).Some?
    ensures r.Some? ==> r.value.AccessRequested? && FeatureToCommunication(r.value.feature) == Some(cf)
  {
    match FeatureFromCommunication(cf)
    case Some(f) =>
      ConversionsRoundTrip(f, Allowed, cf, Com.Allowed);
      Some(AccessRequested(f))
    case None => None
  }

  /** The timeout never affects what the host sees. */
  lemma RequestIgnoresTimeout(cf: Com.Feature, t1: nat, t2: nat)
    ensures OnAccessRequested(cf, t1) == OnAccessRequested(cf, t2)
  {
  }
}
