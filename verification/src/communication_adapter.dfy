/** The Qt plugin's communication adapter: the converters between the Qt
    SDK's enums and the communication layer's, the filtering of incoming
    notifications and input requests, and the result-code translation of
    the URL setters.

    Every enum on either side is a C++ enum class, so a value outside its
    listed enumerators can be held; the `Unlisted…` variants stand for those
    and reach the fall-through of each `switch`. The headers declaring the
    Qt SDK's enums are not part of this model: the variants below are the
    enumerators the adapter's switches name. Each channel call's answer is a
    parameter; each operation returns the call it made, if any. */
module CommunicationAdapter {
  import opened Wrappers
  import Seqs
  import Com = AccessControlService
  import Is = InstantSupportModule
  import Ch = CommunicationChannel
  import Cs = ChatService
  import Sb = ServiceBase
  import Img = ImageService

  // ---------------------------------------------------------------------
  // Access control

  /** `tvqtsdk::AccessControl`. */
  datatype Feature = FileTransfer | RemoteView | RemoteControl | ScreenRecording | UnlistedFeature(raw: int)

  /** `tvqtsdk::Access`. */
  datatype Access = Allowed | AfterConfirmation | Denied | UnlistedAccess(raw: int)

  /** `getSdkCommunicationAccessControl`: None where the source returns false. */
  function FeatureToCom(f: Feature): (r: Option<Com.Feature>)
    ensures r.None? <==> f.UnlistedFeature?
    ensures r.Some? ==> !r.value.UnlistedFeature?
  {
    match f
    case FileTransfer => Some(Com.FileTransfer)
    case RemoteView => Some(Com.RemoteView)
    case RemoteControl => Some(Com.RemoteControl)
    case ScreenRecording => Some(Com.ScreenRecording)
    case UnlistedFeature(_) => None
  }

  /** `getQtSdkAccessControl`. */
  function FeatureFromCom(f: Com.Feature): (r: Option<Feature>)
    ensures r.None? <==> f.UnlistedFeature?
    ensures r.Some? ==> !r.value.UnlistedFeature?
  {
    match f
    case FileTransfer => Some(FileTransfer)
    case RemoteView => Some(RemoteView)
    case RemoteControl => Some(RemoteControl)
    case ScreenRecording => Some(ScreenRecording)
    case UnlistedFeature(_) => None
  }

  /** The feature conversions are inverse bijections between the four
      listed features of each layer. */
  lemma FeatureRoundTrip(f: Feature, g: Com.Feature)
    ensures !f.UnlistedFeature? ==> FeatureToCom(f).Some? && FeatureFromCom(FeatureToCom(f).value) == Some(f)
    ensures !g.UnlistedFeature? ==> FeatureFromCom(g).Some? && FeatureToCom(FeatureFromCom(g).value) == Some(g)
  {
  }

  /** `getSdkCommunicationAccess`. */
  function AccessToCom(a: Access): (r: Option<Com.Access>)
    ensures r.None? <==> a.UnlistedAccess?
    ensures r.Some? ==> !r.value.UnlistedAccess?
  {
    match a
    case Allowed => Some(Com.Allowed)
    case AfterConfirmation => Some(Com.AfterConfirmation)
    case Denied => Some(Com.Denied)
    case UnlistedAccess(_) => None
  }

  /** `getQtSdkAccess`. */
  function AccessFromCom(a: Com.Access): (r: Option<Access>)
    ensures r.None? <==> a.UnlistedAccess?
    ensures r.Some? ==> !r.value.UnlistedAccess?
  {
    match a
    case Allowed => Some(Allowed)
    case AfterConfirmation => Some(AfterConfirmation)
    case Denied => Some(Denied)
    case UnlistedAccess(_) => None
  }

  lemma AccessRoundTrip(a: Access, b: Com.Access)
    ensures !a.UnlistedAccess? ==> AccessToCom(a).Some? && AccessFromCom(AccessToCom(a).value) == Some(a)
    ensures !b.UnlistedAccess? ==> AccessFromCom(b).Some? && AccessToCom(AccessFromCom(b).value) == Some(b)
  {
  }

  /** The access-control calls the adapter makes on the channel. */
  datatype AccessCall =
    | GetAccessMode(feature: Com.Feature)
    | SetAccessMode(feature: Com.Feature, access: Com.Access)
    | ConfirmationReply(feature: Com.Feature, confirmed: bool)

  /** The outcome of an adapter call: its result, the value of its output
      parameter where it has one, and the channel call it made. */
  datatype Outcome<T> = Outcome(ok: bool, out: T, call: Option<AccessCall>)

  /** `sendGetAccessMode`: an unlisted feature fails with no call. Otherwise
      the channel is asked; `reported` is what its output parameter holds
      afterwards. The reply is converted whatever the channel returned, so
      the output parameter is written whenever `reported` is listed, and the
      result is the channel's answer and-ed with the conversion. */
  function SendGetAccessMode(f: Feature, channelOk: bool, reported: Com.Access, prior: Access): (r: Outcome<Access>)
    ensures f.UnlistedFeature? ==> r == Outcome(false, prior, None)
    ensures !f.UnlistedFeature? ==> r.call == Some(GetAccessMode(FeatureToCom(f).value))
    ensures r.ok <==> !f.UnlistedFeature? && channelOk && !reported.UnlistedAccess?
    ensures r.out != prior ==> Some(r.out) == AccessFromCom(reported)
    ensures !f.UnlistedFeature? && !reported.UnlistedAccess? ==> r.out == AccessFromCom(reported).value
    ensures reported.UnlistedAccess? ==> r.out == prior
  {
    match FeatureToCom(f)
    case None => Outcome(false, prior, None)
    case Some(g) =>
      match AccessFromCom(reported)
      case Some(a) => Outcome(channelOk, a, Some(GetAccessMode(g)))
      case None => Outcome(false, prior, Some(GetAccessMode(g)))
  }

  /** The output is written even when the channel call fails: the answer
      converts and lands in the caller's variable while the result is false. */
  lemma GetAccessModeWritesOnFailure(f: Feature, reported: Com.Access, prior: Access)
    requires !f.UnlistedFeature? && !reported.UnlistedAccess?
    ensures !SendGetAccessMode(f, false, reported, prior).ok
    ensures SendGetAccessMode(f, false, reported, prior).out == AccessFromCom(reported).value
  {
  }

  /** `sendSetAccessMode`: both values must convert, else false with no call;
      otherwise the channel's answer. */
  function SendSetAccessMode(f: Feature, a: Access, channelOk: bool): (r: Outcome<()>)
    ensures r.call.Some? <==> !f.UnlistedFeature? && !a.UnlistedAccess?
    ensures r.ok <==> r.call.Some? && channelOk
  {
    match (FeatureToCom(f), AccessToCom(a))
    case (Some(g), Some(b)) => Outcome(channelOk, (), Some(SetAccessMode(g, b)))
    case _ => Outcome(false, (), None)
  }

  /** What the channel receives names the caller's feature and access: the
      call can be read back to the arguments. */
  lemma SetAccessModeFaithful(f: Feature, a: Access, channelOk: bool)
    requires SendSetAccessMode(f, a, channelOk).call.Some?
    ensures var c := SendSetAccessMode(f, a, channelOk).call.value;
      c.SetAccessMode? && FeatureFromCom(c.feature) == Some(f) && AccessFromCom(c.access) == Some(a)
  {
  }

  /** `sendAccessConfirmationReply`. */
  function SendAccessConfirmationReply(f: Feature, confirmed: bool, channelOk: bool): (r: Outcome<()>)
    ensures r.call.Some? <==> !f.UnlistedFeature?
    ensures r.call.Some? ==> (r.call.value.ConfirmationReply? && r.call.value.confirmed == confirmed
      && FeatureFromCom(r.call.value.feature) == Some(f))
    ensures r.ok <==> r.call.Some? && channelOk
  {
    match FeatureToCom(f)
    case None => Outcome(false, (), None)
    case Some(g) => Outcome(channelOk, (), Some(ConfirmationReply(g, confirmed)))
  }

  /** The adapter's access-control signals. */
  datatype AccessSignal =
    | AccessConfirmationRequested(feature: Feature, timeout: nat)
    | AccessModeChangeNotified(feature: Feature, access: Access)

  /** The channel's confirmation request becomes a signal when its feature
      converts, and is dropped otherwise; the timeout is passed on. */
  function OnAccessConfirmationRequested(f: Com.Feature, timeout: nat): (r: Option<AccessSignal>)
    ensures r.Some? <==> !f.UnlistedFeature?
    ensures r.Some? ==> (r.value.AccessConfirmationRequested? && r.value.timeout == timeout
      && FeatureToCom(r.value.feature) == Some(f))
  {
    match FeatureFromCom(f)
    case None => None
    case Some(g) => Some(AccessConfirmationRequested(g, timeout))
  }

  /** An access change becomes a signal when both values convert. */
  function OnAccessModeChange(f: Com.Feature, a: Com.Access): (r: Option<AccessSignal>)
    ensures r.Some? <==> !f.UnlistedFeature? && !a.UnlistedAccess?
    ensures r.Some? ==> (r.value.AccessModeChangeNotified?
      && FeatureToCom(r.value.feature) == Some(f) && AccessToCom(r.value.access) == Some(a))
  {
    match (FeatureFromCom(f), AccessFromCom(a))
    case (Some(g), Some(b)) => Some(AccessModeChangeNotified(g, b))
    case _ => None
  }

  // ---------------------------------------------------------------------
  // Image, session and control-mode values

  /** `tvqtsdk::ColorFormat`. */
  datatype ColorFormat = BGRA32 | R5G6B5 | RGBA32 | Unsupported | UnlistedColorFormat(raw: int)

  /** `getSdkCommunicationColorFormat`: total; Unsupported and anything
      unlisted become Unknown. */
  function ColorFormatToCom(c: ColorFormat): (r: Img.ColorFormat)
    ensures r == Img.Unknown <==> c == Unsupported || c.UnlistedColorFormat?
  {
    match c
    case BGRA32 => Img.BGRA32
    case R5G6B5 => Img.R5G6B5
    case RGBA32 => Img.RGBA32
    case Unsupported => Img.Unknown
    case UnlistedColorFormat(_) => Img.Unknown
  }

  /** The three pixel formats keep their identity across the layers. */
  lemma ColorFormatsDistinct(a: ColorFormat, b: ColorFormat)
    requires ColorFormatToCom(a) != Img.Unknown
    ensures ColorFormatToCom(a) == ColorFormatToCom(b) ==> a == b
  {
  }

  /** The session status service's grab strategy and the Qt SDK's. */
  datatype ComGrabStrategy =
    | ComChangeNotificationOnly | ComEventDrivenByApp | ComNoGrabbing | ComUnknownStrategy
    | ComUnlistedStrategy(raw: int)
  datatype GrabStrategy = ChangeNotificationOnly | EventDrivenByApp | NoGrabbing

  /** `getQtSdkGrabbingStrategy`: Unknown and anything unlisted mean no grabbing. */
  function GrabStrategyFromCom(s: ComGrabStrategy): (r: GrabStrategy)
    ensures r != NoGrabbing <==> s == ComChangeNotificationOnly || s == ComEventDrivenByApp
  {
    match s
    case ComChangeNotificationOnly => ChangeNotificationOnly
    case ComEventDrivenByApp => EventDrivenByApp
    case ComNoGrabbing => NoGrabbing
    case ComUnknownStrategy => NoGrabbing
    case ComUnlistedStrategy(_) => NoGrabbing
  }

  /** The agent's strategy each Qt strategy stands for. */
  function GrabStrategyToCom(g: GrabStrategy): (r: ComGrabStrategy)
    ensures !r.ComUnlistedStrategy? && r != ComUnknownStrategy
  {
    match g
    case ChangeNotificationOnly => ComChangeNotificationOnly
    case EventDrivenByApp => ComEventDrivenByApp
    case NoGrabbing => ComNoGrabbing
  }

  /** Every Qt strategy is reached from exactly its own agent strategy. */
  lemma GrabStrategyRoundTrip(g: GrabStrategy, s: ComGrabStrategy)
    ensures GrabStrategyFromCom(GrabStrategyToCom(g)) == g
    ensures GrabStrategyFromCom(s) == g && g != NoGrabbing ==> s == GrabStrategyToCom(g)
  {
  }

  /** `tvqtsdk::ControlMode` and the session control service's. */
  datatype ControlMode = Disabled | ViewOnly | FullControl | UnlistedControlMode(raw: int)
  datatype ComControlMode = ComDisable | ComScreenSharing | ComFullControl | ComUnknownControlMode

  /** `getSdkCommunicationControlMode`, which `sendControlMode` forwards. */
  function ControlModeToCom(m: ControlMode): (r: ComControlMode)
    ensures r == ComUnknownControlMode <==> m.UnlistedControlMode?
  {
    match m
    case Disabled => ComDisable
    case ViewOnly => ComScreenSharing
    case FullControl => ComFullControl
    case UnlistedControlMode(_) => ComUnknownControlMode
  }

  lemma ControlModesDistinct(a: ControlMode, b: ControlMode)
    requires !a.UnlistedControlMode?
    ensures ControlModeToCom(a) == ControlModeToCom(b) ==> a == b
  {
  }

  // ---------------------------------------------------------------------
  // Connection confirmation

  /** `tvqtsdk::ConnectionType` and `ConnectionUserConfirmation`. */
  datatype ConnectionType = InstantSupportConnection | UndefinedConnection | UnlistedConnectionType(raw: int)
  datatype UserConfirmation = ConfirmAccepted | ConfirmDenied | ConfirmNoResponse | UnlistedConfirmation(raw: int)

  /** The connection-confirmation service's connection type. */
  datatype ComConnectionType = ComInstantSupport | ComUndefined

  datatype ConfirmCall = ConfirmCall(connectionType: ComConnectionType, confirmation: Is.Confirmation)

  function ConfirmationToCom(c: UserConfirmation): (r: Option<Is.Confirmation>)
    ensures r.None? <==> c.UnlistedConfirmation?
  {
    match c
    case ConfirmAccepted => Some(Is.Accepted)
    case ConfirmDenied => Some(Is.Denied)
    case ConfirmNoResponse => Some(Is.NoResponse)
    case UnlistedConfirmation(_) => None
  }

  function ConnectionTypeToCom(t: ConnectionType): (r: Option<ComConnectionType>)
    ensures r.None? <==> t.UnlistedConnectionType?
  {
    match t
    case InstantSupportConnection => Some(ComInstantSupport)
    case UndefinedConnection => Some(ComUndefined)
    case UnlistedConnectionType(_) => None
  }

  /** `confirmConnectionRequest`: the confirmation is converted first, then
      the connection type; either failing returns false with no call. */
  function ConfirmConnectionRequest(t: ConnectionType, c: UserConfirmation, channelOk: bool): (r: (bool, Option<ConfirmCall>))
    ensures r.1.Some? <==> !t.UnlistedConnectionType? && !c.UnlistedConfirmation?
    ensures r.0 <==> r.1.Some? && channelOk
  {
    match ConfirmationToCom(c)
    case None => (false, None)
    case Some(sc) =>
      match ConnectionTypeToCom(t)
      case None => (false, None)
      case Some(st) => (channelOk, Some(ConfirmCall(st, sc)))
  }

  /** Distinct requests reach the channel as distinct calls. */
  lemma ConfirmCallsDistinct(t1: ConnectionType, c1: UserConfirmation, t2: ConnectionType, c2: UserConfirmation, ok: bool)
    requires ConfirmConnectionRequest(t1, c1, ok).1.Some?
    ensures ConfirmConnectionRequest(t1, c1, ok).1 == ConfirmConnectionRequest(t2, c2, ok).1 ==> t1 == t2 && c1 == c2
  {
  }

  // ---------------------------------------------------------------------
  // View geometry and URL results

  /** `tvqtsdk::ViewGeometrySendResult` and the agent API's. */
  datatype ViewGeometrySendResult = GeometryOk | GeometryNoService | GeometryCallError | GeometryRejected
  datatype ComViewGeometrySendResult =
    | ComGeometryOk | ComGeometryNoService | ComGeometryCallError | ComGeometryRejected
    | ComUnlistedGeometryResult(raw: int)

  /** `ConvertFromInternalViewGeometrySendResult` and its callers
      `sendVirtualDesktopGeometry` and `sendAreaOfInterest`, which report a
      failed conversion as CallError. */
  function ViewGeometryResult(r: ComViewGeometrySendResult): (q: ViewGeometrySendResult)
    ensures r.ComUnlistedGeometryResult? ==> q == GeometryCallError
  {
    match r
    case ComGeometryOk => GeometryOk
    case ComGeometryNoService => GeometryNoService
    case ComGeometryCallError => GeometryCallError
    case ComGeometryRejected => GeometryRejected
    case ComUnlistedGeometryResult(_) => GeometryCallError
  }

  /** The listed result each Qt result stands for. */
  function ViewGeometryResultToCom(q: ViewGeometrySendResult): (r: ComViewGeometrySendResult)
    ensures !r.ComUnlistedGeometryResult?
  {
    match q
    case GeometryOk => ComGeometryOk
    case GeometryNoService => ComGeometryNoService
    case GeometryCallError => ComGeometryCallError
    case GeometryRejected => ComGeometryRejected
  }

  lemma ViewGeometryRoundTrip(q: ViewGeometrySendResult, r: ComViewGeometrySendResult)
    ensures ViewGeometryResult(ViewGeometryResultToCom(q)) == q
    ensures !r.ComUnlistedGeometryResult? ==> ViewGeometryResultToCom(ViewGeometryResult(r)) == r
  {
  }

  /** `tvqtsdk::BaseUrlParseResultCode`. */
  datatype BaseUrlParseResultCode = Success | CharacterLimitForPathExceeded | SchemaNotValid | ConnectionIsInUse

  /** `ConvertFromInternalBaseUrlParseResultCode` as written: the
      ConnectionIsInUse case sets the output but has no `return true`, so it
      falls out of the switch and returns false. */
  function ConvertParseResultAsWritten(c: Ch.BaseUrlParseResultCode): (r: (bool, BaseUrlParseResultCode))
    ensures r.0 <==> c != Ch.ConnectionIsInUse
  {
    match c
    case Success => (true, Success)
    case CharacterLimitForPathExceeded => (true, CharacterLimitForPathExceeded)
    case SchemaNotValid => (true, SchemaNotValid)
    case ConnectionIsInUse => (false, ConnectionIsInUse)
  }

  /** The conversion with the missing `return true`: every code converts. */
  function ConvertParseResult(c: Ch.BaseUrlParseResultCode): (r: (bool, BaseUrlParseResultCode))
    ensures r.0
  {
    match c
    case Success => (true, Success)
    case CharacterLimitForPathExceeded => (true, CharacterLimitForPathExceeded)
    case SchemaNotValid => (true, SchemaNotValid)
    case ConnectionIsInUse => (true, ConnectionIsInUse)
  }

  /** What the URL setters return for the channel's code `c`: the converted
      code, or SchemaNotValid when the conversion fails. */
  function ReportAsWritten(c: Ch.BaseUrlParseResultCode): (q: BaseUrlParseResultCode)
    ensures q != ConnectionIsInUse
    ensures c == Ch.ConnectionIsInUse ==> q == SchemaNotValid
    ensures c != Ch.ConnectionIsInUse ==> q == Report(c)
  {
    var r := ConvertParseResultAsWritten(c);
    if r.0 then r.1 else SchemaNotValid
  }

  /** The corrected report: every channel code as the code of the same
      name. */
  function Report(c: Ch.BaseUrlParseResultCode): (q: BaseUrlParseResultCode)
    ensures c == Ch.Success <==> q == Success
    ensures c == Ch.CharacterLimitForPathExceeded <==> q == CharacterLimitForPathExceeded
    ensures c == Ch.SchemaNotValid <==> q == SchemaNotValid
    ensures c == Ch.ConnectionIsInUse <==> q == ConnectionIsInUse
  {
    var r := ConvertParseResult(c);
    if r.0 then r.1 else SchemaNotValid
  }

  /** As written, two channel codes collapse into one: a channel in use is
      reported as a malformed URL. */
  lemma InUseReportedAsMalformed()
    ensures ReportAsWritten(Ch.ConnectionIsInUse) == ReportAsWritten(Ch.SchemaNotValid) == SchemaNotValid
    ensures forall c :: c != Ch.ConnectionIsInUse ==> ReportAsWritten(c) == Report(c)
  {
  }

  /** Corrected, the report loses nothing: distinct channel codes give
      distinct results, and "in use" is reported as such. */
  lemma ReportFaithful(a: Ch.BaseUrlParseResultCode, b: Ch.BaseUrlParseResultCode)
    ensures Report(a) == Report(b) ==> a == b
    ensures Report(Ch.ConnectionIsInUse) == ConnectionIsInUse
  {
  }

  /** `setRemoteScreenSdkBaseUrlChecked`: an invalid `QUrl` is rejected
      before the channel sees it; otherwise the channel's code is reported.
      `valid` is `QUrl::isValid()`, and `url` its text. */
  function SetBaseUrlCheckedAsWritten(ch: Ch.Channel, valid: bool, url: string): (r: (BaseUrlParseResultCode, Ch.Channel))
    ensures !valid ==> r == (SchemaNotValid, ch)
  {
    if !valid then (SchemaNotValid, ch)
    else var (c, ch') := Ch.SetBaseUrlChecked(ch, url); (ReportAsWritten(c), ch')
  }

  function SetBaseUrlChecked(ch: Ch.Channel, valid: bool, url: string): (r: (BaseUrlParseResultCode, Ch.Channel))
    ensures !valid ==> r == (SchemaNotValid, ch)
    ensures valid ==> r.1 == Ch.SetBaseUrlChecked(ch, url).1
  {
    if !valid then (SchemaNotValid, ch)
    else var (c, ch') := Ch.SetBaseUrlChecked(ch, url); (Report(c), ch')
  }

  /** `setRemoteScreenSdkUrls`: both `QUrl`s must be valid, then `setUrls`. */
  function SetUrlsAsWritten(ch: Ch.Channel, baseValid: bool, agentValid: bool, baseUrl: string, agentUrl: string)
    : (r: (BaseUrlParseResultCode, Ch.Channel))
    ensures !baseValid || !agentValid ==> r == (SchemaNotValid, ch)
  {
    if !baseValid || !agentValid then (SchemaNotValid, ch)
    else var (c, ch') := Ch.SetUrls(ch, baseUrl, agentUrl); (ReportAsWritten(c), ch')
  }

  function SetUrls(ch: Ch.Channel, baseValid: bool, agentValid: bool, baseUrl: string, agentUrl: string)
    : (r: (BaseUrlParseResultCode, Ch.Channel))
    ensures !baseValid || !agentValid ==> r == (SchemaNotValid, ch)
    ensures baseValid && agentValid ==> r.1 == Ch.SetUrls(ch, baseUrl, agentUrl).1
  {
    if !baseValid || !agentValid then (SchemaNotValid, ch)
    else var (c, ch') := Ch.SetUrls(ch, baseUrl, agentUrl); (Report(c), ch')
  }

  /** While the channel runs, the adapter as written tells its caller that
      two well-formed URLs are malformed; corrected, it says the connection
      is in use. */
  lemma RunningChannelMisreported(ch: Ch.Channel, baseUrl: string, agentUrl: string)
    requires ch.running
    ensures SetUrlsAsWritten(ch, true, true, baseUrl, agentUrl).0 == SchemaNotValid
    ensures SetUrls(ch, true, true, baseUrl, agentUrl).0 == ConnectionIsInUse
  {
  }

  /** The same for the checked base-URL setter, for any URL the channel can
      parse to a known transport. */
  lemma RunningChannelMisreportedChecked(ch: Ch.Channel, url: string)
    requires ch.running
    requires Ch.Url.ParseUrl(url).Some?
    requires Ch.Url.GetTransportFramework(Ch.Url.ParseUrl(url).value.scheme) != Ch.Url.UnknownTransport
    ensures SetBaseUrlCheckedAsWritten(ch, true, url).0 == SchemaNotValid
    ensures SetBaseUrlChecked(ch, true, url).0 == ConnectionIsInUse
  {
    Ch.BaseUrlCheckedOutcomes(ch, url);
  }

  /** Apart from the in-use case the two versions agree. */
  lemma SetUrlsVersionsAgree(ch: Ch.Channel, baseValid: bool, agentValid: bool, baseUrl: string, agentUrl: string)
    requires !ch.running
    ensures SetUrlsAsWritten(ch, baseValid, agentValid, baseUrl, agentUrl)
      == SetUrls(ch, baseValid, agentValid, baseUrl, agentUrl)
  {
    if baseValid && agentValid {
      InUseReportedAsMalformed();
    }
  }

  // ---------------------------------------------------------------------
  // Chat

  /** `QUuid::toString()` encloses the 36-character hyphenated form in
      braces. */
  function Braced(s: string): (r: string)
    ensures |r| == |s| + 2 && r[0] == '{' && r[|r| - 1] == '}'
  {
    "{" + s + "}"
  }

  /** `QUuidToString`: the `QUuid`'s text with its first and last character
      dropped. `text` is `quuid.toString()`, which always has both. */
  function QUuidToString(text: string): (r: string)
    requires 2 <= |text|
    ensures |r| == |text| - 2
  {
    text[1..|text| - 1]
  }

  /** Dropping the two ends undoes the bracing. */
  lemma QUuidToStringUnbraces(s: string)
    ensures QUuidToString(Braced(s)) == s
  {
  }

  /** The channel calls for chat selection and history loading carry the
      unbraced ID. A `QUuid`'s text is never shorter than its braces plus
      the 36 characters, so the ID is never empty and the channel's
      nil-UUID default for an empty ID is never used through the adapter. */
  lemma LoadMessagesIdPassedThrough(s: string)
    requires |s| == 36
    ensures Ch.LoadMessagesLastId(QUuidToString(Braced(s))) == s
  {
    QUuidToStringUnbraces(s);
  }

  /** The Qt SDK's chat type and state. */
  datatype ChatType = Machine | Session
  datatype ChatState = Open | Closed

  /** A chat as the Qt SDK hands it on. */
  datatype ChatInfo = ChatInfo(chatId: string, title: string, chatType: ChatType, chatTypeId: nat, chatState: ChatState)

  /** `ConvertFromSdkChatType`. */
  function ChatTypeFromCom(t: Cs.ChatType): (r: Option<ChatType>)
    ensures r.None? <==> t.UnlistedChatType?
    ensures r == Some(Machine) <==> t == Cs.Machine
  {
    if t.Machine? then Some(Machine)
    else if t.Session? then Some(Session)
    else None
  }

  /** `ConvertFromSdkChatState`. */
  function ChatStateFromCom(s: Cs.ChatState): (r: Option<ChatState>)
    ensures r.None? <==> s.UnlistedChatState?
    ensures r == Some(Open) <==> s == Cs.Open
  {
    if s.Open? then Some(Open)
    else if s.Closed? then Some(Closed)
    else None
  }

  predicate Converts(c: Cs.ChatInfo) {
    ChatTypeFromCom(c.chatType).Some? && ChatStateFromCom(c.chatState).Some?
  }

  /** One chat, as `getSdkObtainChatsResult` copies it. */
  function ConvertChat(c: Cs.ChatInfo): (r: ChatInfo)
    requires Converts(c)
    ensures r.chatId == c.chatId && r.title == c.title && r.chatTypeId == c.chatTypeId
    ensures Some(r.chatType) == ChatTypeFromCom(c.chatType) && Some(r.chatState) == ChatStateFromCom(c.chatState)
  {
    ChatInfo(c.chatId, c.title, ChatTypeFromCom(c.chatType).value, c.chatTypeId, ChatStateFromCom(c.chatState).value)
  }

  /** `getSdkObtainChatsResult`: the chats whose type and state both
      convert, converted, in order. */
  function ObtainChatsResult(chats: seq<Cs.ChatInfo>): (r: seq<ChatInfo>)
    ensures |r| <= |chats|
  {
    if chats == [] then []
    else (if Converts(chats[0]) then [ConvertChat(chats[0])] else []) + ObtainChatsResult(chats[1..])
  }

  /** The result of a concatenation is the concatenation of the results;
      with the one-chat case this pins the function down as an in-order
      filter. */
  lemma {:induction false} ObtainChatsAppend(a: seq<Cs.ChatInfo>, b: seq<Cs.ChatInfo>)
    ensures ObtainChatsResult(a + b) == ObtainChatsResult(a) + ObtainChatsResult(b)
    decreases |a|
  {
    if a == [] {
      assert a + b == b;
    } else {
      ObtainChatsAppend(a[1..], b);
      ObtainChatsHead(a, b);
      Seqs.AppendAssoc(if Converts(a[0]) then [ConvertChat(a[0])] else [],
                       ObtainChatsResult(a[1..]), ObtainChatsResult(b));
    }
  }

  lemma ObtainChatsHead(a: seq<Cs.ChatInfo>, b: seq<Cs.ChatInfo>)
    requires a != []
    ensures ObtainChatsResult(a + b) == (if Converts(a[0]) then [ConvertChat(a[0])] else []) + ObtainChatsResult(a[1..] + b)
    ensures ObtainChatsResult(a) == (if Converts(a[0]) then [ConvertChat(a[0])] else []) + ObtainChatsResult(a[1..])
  {
    assert (a + b)[0] == a[0];
    assert (a + b)[1..] == a[1..] + b;
  }

  lemma ObtainChatsSingle(c: Cs.ChatInfo)
    ensures ObtainChatsResult([c]) == if Converts(c) then [ConvertChat(c)] else []
  {
    assert [c][1..] == [];
  }

  /** A chat is in the result exactly when it is the conversion of a
      convertible chat of the input. */
  lemma {:induction false} ObtainChatsMembers(chats: seq<Cs.ChatInfo>, x: ChatInfo)
    ensures x in ObtainChatsResult(chats) <==> exists i :: 0 <= i < |chats| && Converts(chats[i]) && ConvertChat(chats[i]) == x
    decreases |chats|
  {
    if chats != [] {
      ObtainChatsMembers(chats[1..], x);
      if x in ObtainChatsResult(chats[1..]) {
        var i :| 0 <= i < |chats[1..]| && Converts(chats[1..][i]) && ConvertChat(chats[1..][i]) == x;
        assert chats[i + 1] == chats[1..][i];
      }
      if exists i :: 0 <= i < |chats| && Converts(chats[i]) && ConvertChat(chats[i]) == x {
        var i :| 0 <= i < |chats| && Converts(chats[i]) && ConvertChat(chats[i]) == x;
        if i > 0 {
          assert chats[1..][i - 1] == chats[i];
        }
      }
    }
  }

  /** When every chat converts nothing is dropped. */
  lemma {:induction false} ObtainChatsKeepsAll(chats: seq<Cs.ChatInfo>)
    requires forall i :: 0 <= i < |chats| ==> Converts(chats[i])
    ensures |ObtainChatsResult(chats)| == |chats|
    ensures forall i :: 0 <= i < |chats| ==> ObtainChatsResult(chats)[i] == ConvertChat(chats[i])
    decreases |chats|
  {
    if chats != [] {
      ObtainChatsKeepsAll(chats[1..]);
    }
  }

  /** `sendObtainChatsRequest`: on success the converted chats are appended
      to the caller's list; on failure it is left as it was. */
  function SendObtainChatsRequest(prior: seq<ChatInfo>, channelOk: bool, chats: seq<Cs.ChatInfo>): (r: (bool, seq<ChatInfo>))
    ensures r.0 == channelOk
    ensures !channelOk ==> r.1 == prior
    ensures channelOk ==> |prior| <= |r.1| <= |prior| + |chats| && r.1[..|prior|] == prior
    ensures channelOk ==> r.1 == prior + ObtainChatsResult(chats)
  {
    if channelOk then (true, prior + ObtainChatsResult(chats)) else (false, prior)
  }

  /** The whole fetch, from the chat-in client's wire entries to the Qt
      list: when the client is connected, the communication ID is set, the
      call succeeds and every entry decodes, the caller's list gains one
      chat per entry, in order, each the conversion of its decoded entry
      (entries whose type or state the plugin does not list are dropped);
      otherwise the caller's list is kept. */
  lemma ObtainChatsEndToEnd(c: Sb.Client, comId: string, answer: Sb.Status, ws: seq<Cs.WireChatInfo>, prior: seq<ChatInfo>)
    ensures var ch := Ch.SendObtainChatsRequest(true, c, comId, answer, ws, []);
      var r := SendObtainChatsRequest(prior, ch.0, ch.1);
      && (r.0 <==> c.connected && comId != [] && answer.ok() && Cs.Decodable(ws))
      && (r.0 ==> r.1 == prior + ObtainChatsResult(Cs.DecodeChats(ws).value))
      && (!r.0 ==> r.1 == prior)
  {
  }

  /** The channel's chat-created notification becomes a signal when its type
      converts. */
  datatype ChatCreated = ChatCreated(chatId: string, title: string, chatType: ChatType, chatTypeId: nat)

  function OnChatCreated(chatId: string, title: string, t: Cs.ChatType, chatTypeId: nat): (r: Option<ChatCreated>)
    ensures r.Some? <==> !t.UnlistedChatType?
    ensures r.Some? ==> (r.value.chatId == chatId && r.value.title == title && r.value.chatTypeId == chatTypeId
      && Some(r.value.chatType) == ChatTypeFromCom(t))
  {
    match ChatTypeFromCom(t)
    case None => None
    case Some(q) => Some(ChatCreated(chatId, title, q, chatTypeId))
  }

  // ---------------------------------------------------------------------
  // Instant support

  /** `tvqtsdk::InstantSupportError` and `InstantSupportState`. */
  datatype InstantSupportError = InvalidToken | InvalidGroup | InvalidSessionCode | Busy | InternalError | InvalidEmail
  datatype InstantSupportState = SupportOpen | SupportClosed | SupportUndefined

  /** `getQtSdkInstantSupportError`: unlisted codes become InternalError. */
  function ErrorFromCom(e: Is.ChannelError): (r: InstantSupportError)
    ensures e.ChannelUnlistedError? ==> r == InternalError
  {
    match e
    case ChannelInvalidToken => InvalidToken
    case ChannelInvalidGroup => InvalidGroup
    case ChannelInvalidSessionCode => InvalidSessionCode
    case ChannelBusy => Busy
    case ChannelInternalError => InternalError
    case ChannelInvalidEmail => InvalidEmail
    case ChannelUnlistedError(_) => InternalError
  }

  /** The agent API's code of the same name. */
  function ApiError(r: Is.RequestErrorCode): (q: InstantSupportError) {
    match r
    case InternalError => InternalError
    case InvalidToken => InvalidToken
    case InvalidGroup => InvalidGroup
    case InvalidSessionCode => InvalidSessionCode
    case Busy => Busy
    case InvalidEmail => InvalidEmail
  }

  /** The Qt plugin and the agent API read every channel error code alike,
      and the listed codes map one-to-one. */
  lemma ErrorAgreesWithAgentApi(e: Is.ChannelError, q: InstantSupportError)
    ensures ErrorFromCom(e) == ApiError(Is.ErrorFromChannel(e))
    ensures exists r :: ApiError(r) == q
    ensures forall e2: Is.ChannelError ::
      (!e.ChannelUnlistedError? && !e2.ChannelUnlistedError? && ErrorFromCom(e) == ErrorFromCom(e2)) ==> e == e2
  {
    match q
    case InternalError => assert ApiError(Is.InternalError) == q;
    case InvalidToken => assert ApiError(Is.InvalidToken) == q;
    case InvalidGroup => assert ApiError(Is.InvalidGroup) == q;
    case InvalidSessionCode => assert ApiError(Is.InvalidSessionCode) == q;
    case Busy => assert ApiError(Is.Busy) == q;
    case InvalidEmail => assert ApiError(Is.InvalidEmail) == q;
  }

  /** `getQtSdkInstantSupportState`: unlisted states become Undefined. */
  function StateFromCom(s: Is.ChannelState): (r: InstantSupportState)
    ensures s.ChannelUnlistedState? ==> r == SupportUndefined
  {
    match s
    case ChannelOpen => SupportOpen
    case ChannelClosed => SupportClosed
    case ChannelUndefined => SupportUndefined
    case ChannelUnlistedState(_) => SupportUndefined
  }

  lemma StateAgreesWithAgentApi(s: Is.ChannelState)
    ensures StateFromCom(s) == SupportOpen <==> Is.StateFromChannel(s) == Is.Open
    ensures StateFromCom(s) == SupportClosed <==> Is.StateFromChannel(s) == Is.Closed
    ensures StateFromCom(s) == SupportUndefined <==> Is.StateFromChannel(s) == Is.Undefined
  {
  }

  datatype InstantSupportData = InstantSupportData(sessionCode: string, name: string, description: string, state: InstantSupportState)

  /** `getQtSdkInstantSupportData`: the texts are copied, the state converted. */
  function DataFromCom(d: Is.ChannelSessionData): (r: InstantSupportData)
    ensures r.sessionCode == d.sessionCode && r.name == d.name && r.description == d.description
    ensures r.state == StateFromCom(d.state)
  {
    InstantSupportData(d.sessionCode, d.name, d.description, StateFromCom(d.state))
  }

  // ---------------------------------------------------------------------
  // Input

  /** The input service's key state and the Qt SDK's. */
  datatype ComKeyState = KeyDown | KeyUp | KeyUnknown | UnlistedKeyState(raw: int)
  datatype KeyState = Pressed | Released

  /** `SimulateKeyCommand`: key state, XKB symbol, Unicode character and XKB
      modifier mask. */
  datatype KeyCommand = KeyCommand(state: KeyState, xkbSymbol: nat, unicodeCharacter: nat, xkbModifiers: nat)

  /** The key-input callback: Down and Up become a command with the other
      arguments unchanged; Unknown and unlisted states produce none. */
  function OnKeyInput(s: ComKeyState, xkbSymbol: nat, unicodeCharacter: nat, xkbModifiers: nat): (r: Option<KeyCommand>)
    ensures r.Some? <==> s == KeyDown || s == KeyUp
    ensures r.Some? ==> (r.value.xkbSymbol == xkbSymbol && r.value.unicodeCharacter == unicodeCharacter
      && r.value.xkbModifiers == xkbModifiers
      && (r.value.state == Pressed <==> s == KeyDown))
  {
    match s
    case KeyDown => Some(KeyCommand(Pressed, xkbSymbol, unicodeCharacter, xkbModifiers))
    case KeyUp => Some(KeyCommand(Released, xkbSymbol, unicodeCharacter, xkbModifiers))
    case _ => None
  }

  /** The input service's mouse button and button state, and the Qt SDK's. */
  datatype ComMouseButton = ComLeft | ComMiddle | ComRight | ComUnknownButton | UnlistedButton(raw: int)
  datatype ComButtonState = ComPressed | ComReleased | ComUnknownButtonState | UnlistedButtonState(raw: int)
  datatype MouseButton = Left | Middle | Right | UnknownButton
  datatype ButtonState = NoButtonState | ButtonPressed | ButtonReleased
  datatype MouseAction = Move | PressOrRelease | Wheel

  /** `SimulateMouseCommand`. Positions and the wheel angle are 32-bit
      values passed through unchanged. */
  datatype MouseCommand = MouseCommand(
    buttonState: ButtonState, action: MouseAction, x: int, y: int, button: MouseButton, angle: int)

  /** `getQtSdkMouseButton`: unlisted buttons read as Unknown. */
  function ButtonFromCom(b: ComMouseButton): (r: MouseButton)
    ensures r == UnknownButton <==> b == ComUnknownButton || b.UnlistedButton?
  {
    match b
    case ComLeft => Left
    case ComMiddle => Middle
    case ComRight => Right
    case ComUnknownButton => UnknownButton
    case UnlistedButton(_) => UnknownButton
  }

  function OnMouseMove(x: int, y: int): (r: MouseCommand)
    ensures r.action == Move && r.x == x && r.y == y
  {
    MouseCommand(NoButtonState, Move, x, y, UnknownButton, 0)
  }

  function OnMouseWheel(x: int, y: int, angle: int): (r: MouseCommand)
    ensures r.action == Wheel && r.x == x && r.y == y && r.angle == angle
  {
    MouseCommand(NoButtonState, Wheel, x, y, UnknownButton, angle)
  }

  /** The press/release callback: a command only for a known button in a
      known state. */
  function OnMousePressRelease(s: ComButtonState, x: int, y: int, b: ComMouseButton): (r: Option<MouseCommand>)
    ensures r.Some? <==> ButtonFromCom(b) != UnknownButton && (s == ComPressed || s == ComReleased)
  {
    var button := ButtonFromCom(b);
    if button == UnknownButton then None
    else
      match s
      case ComPressed => Some(MouseCommand(ButtonPressed, PressOrRelease, x, y, button, 0))
      case ComReleased => Some(MouseCommand(ButtonReleased, PressOrRelease, x, y, button, 0))
      case _ => None
  }

  /** The three mouse callbacks share one signal, and the command tells
      them apart: its action names the callback, and a press or release
      command gives back the position, the button and the state it came
      from. */
  lemma MouseCommandsIdentifySource(s: ComButtonState, x: int, y: int, b: ComMouseButton, x2: int, y2: int, angle: int)
    ensures OnMouseMove(x2, y2) != OnMouseWheel(x2, y2, angle)
    ensures OnMousePressRelease(s, x, y, b).Some? ==> (
      var c := OnMousePressRelease(s, x, y, b).value;
      && c.action == PressOrRelease && c != OnMouseMove(x2, y2) && c != OnMouseWheel(x2, y2, angle)
      && c.x == x && c.y == y && ButtonFromCom(b) == c.button
      && (c.buttonState == ButtonPressed <==> s == ComPressed))
  {
  }
}
