/** The `AppModel` of the Qt example application (`examples/Qt`): the
    access modes it shows, the confirmation requests it raises and answers,
    and its reaction to the agent connection coming and going. The chat part
    is `QtAppShared.ChatView`.

    The plugin is the `TVQtRCPlugin` model; what it answers is a parameter,
    and a call the application makes on it is an effect. The application's
    `AllowPartnerViewDesktop` feature is the plugin's `RemoteView`. The
    single-shot `QTimer` is a flag, plus the number of times its timeout
    has been connected to `confirmationTimeout`. */
module QtAppModel {
  import opened Wrappers
  import Ad = CommunicationAdapter
  import Pl = TVQtRCPlugin
  import Sh = QtAppShared

  // ---------------------------------------------------------------------
  // Values

  /** `AppModel::Access`; an integer from QML that is none of the three is
      `UnlistedAppAccess`. */
  datatype Access = AppAllowed | AppAfterConfirmation | AppDenied | UnlistedAppAccess(raw: int)

  /** `AppModel::AccessControl`. */
  datatype AccessControl = FileTransfer | AllowPartnerViewDesktop | RemoteControl | UnlistedAccessControl(raw: int)

  /** `toAppAccessValue`: an access the plugin does not list shows as
      denied. */
  function ToAppAccess(a: Ad.Access): (r: Access)
    ensures !r.UnlistedAppAccess?
    ensures a.UnlistedAccess? ==> r == AppDenied
  {
    if a.Allowed? then AppAllowed
    else if a.AfterConfirmation? then AppAfterConfirmation
    else AppDenied
  }

  /** `toPluginAccessValue`: an unlisted access requests denial. */
  function ToPluginAccess(a: Access): (r: Ad.Access)
    ensures !r.UnlistedAccess?
    ensures a.UnlistedAppAccess? ==> r == Ad.Denied
  {
    match a
    case AppAllowed => Ad.Allowed
    case AppAfterConfirmation => Ad.AfterConfirmation
    case AppDenied => Ad.Denied
    case UnlistedAppAccess(_) => Ad.Denied
  }

  /** `toPluginAccessControlValue`: only the three listed features convert. */
  function ToPluginAccessControl(f: AccessControl): (r: Option<Ad.Feature>)
    ensures r.Some? <==> !f.UnlistedAccessControl?
    ensures r.Some? ==> !r.value.UnlistedFeature? && !r.value.ScreenRecording?
  {
    match f
    case FileTransfer => Some(Ad.FileTransfer)
    case AllowPartnerViewDesktop => Some(Ad.RemoteView)
    case RemoteControl => Some(Ad.RemoteControl)
    case UnlistedAccessControl(_) => None
  }

  /** The feature a plugin notification is about, as the handlers of access
      changes and confirmation requests tell them apart; screen recording is
      not among them. */
  function AccessControlOf(g: Ad.Feature): Option<AccessControl> {
    if g.FileTransfer? then Some(FileTransfer)
    else if g.RemoteView? then Some(AllowPartnerViewDesktop)
    else if g.RemoteControl? then Some(RemoteControl)
    else None
  }

  /** The conversions are inverse on the listed values in both directions. */
  lemma ConversionsRoundTrip(a: Access, b: Ad.Access, f: AccessControl, g: Ad.Feature)
    ensures !a.UnlistedAppAccess? ==> ToAppAccess(ToPluginAccess(a)) == a
    ensures !b.UnlistedAccess? ==> ToPluginAccess(ToAppAccess(b)) == b
    ensures ToPluginAccessControl(f).Some? ==> AccessControlOf(ToPluginAccessControl(f).value) == Some(f)
    ensures AccessControlOf(g).Some? <==> g.FileTransfer? || g.RemoteView? || g.RemoteControl?
    ensures AccessControlOf(g).Some? ==> ToPluginAccessControl(AccessControlOf(g).value) == Some(g)
  {
  }

  // ---------------------------------------------------------------------
  // State

  datatype App = App(
    hasPlugin: bool,
    chat: Sh.ChatView,
    fileTransfer: Access,
    viewDesktop: Access,
    remoteControl: Access,
    fileTransferRequested: bool,
    viewDesktopRequested: bool,
    remoteControlRequested: bool,
    timerRunning: bool,
    timeoutConnections: nat)

  /** An application model as constructed: every access denied, nothing
      requested. It has a chat only when the plugin hands one out. */
  function Initial(hasPlugin: bool, chatGiven: bool): (r: App)
    ensures r.chat.hasChat ==> r.hasPlugin
    ensures r.fileTransfer == r.viewDesktop == r.remoteControl == AppDenied
    ensures !r.fileTransferRequested && !r.viewDesktopRequested && !r.remoteControlRequested
  {
    App(hasPlugin, Sh.InitialChatView(hasPlugin && chatGiven), AppDenied, AppDenied, AppDenied, false, false, false, false, 0)
  }

  /** The access mode shown for a listed feature. */
  function Mode(app: App, f: AccessControl): Access
    requires !f.UnlistedAccessControl?
  {
    match f
    case FileTransfer => app.fileTransfer
    case AllowPartnerViewDesktop => app.viewDesktop
    case RemoteControl => app.remoteControl
  }

  /** Whether a confirmation is pending for a listed feature. */
  function Requested(app: App, f: AccessControl): bool
    requires !f.UnlistedAccessControl?
  {
    match f
    case FileTransfer => app.fileTransferRequested
    case AllowPartnerViewDesktop => app.viewDesktopRequested
    case RemoteControl => app.remoteControlRequested
  }

  /** Signals to the user interface, calls on the plugin, and the timer. */
  datatype Effect =
    | Chat(e: Sh.ChatEffect)
    | AccessModeChanged
    | AccessConfirmationRequested
    | TvCommunicationRunningChanged
    | CallGetAccessMode(feature: Ad.Feature)
    | CallSetAccessMode(setFeature: Ad.Feature, access: Ad.Access)
    | CallAccessConfirmationReply(replyFeature: Ad.Feature, confirmed: bool)
    | TimerStarted(intervalMs: int)
    | TimerStopped

  function Lift(es: seq<Sh.ChatEffect>): (r: seq<Effect>)
    ensures |r| == |es| && forall i :: 0 <= i < |es| ==> r[i] == Chat(es[i])
  {
    seq(|es|, i requires 0 <= i < |es| => Chat(es[i]))
  }

  // ---------------------------------------------------------------------
  // Access modes

  /** The access-change handler: the mode of the feature concerned follows
      the plugin, and the change is signalled even for a feature this
      application does not show. */
  function OnAccessModeChanged(app: App, g: Ad.Feature, a: Ad.Access): (r: (App, seq<Effect>))
    ensures r.1 == [AccessModeChanged]
    ensures AccessControlOf(g).None? ==> r.0 == app
    ensures AccessControlOf(g).Some? ==> (
      var f := AccessControlOf(g).value;
      && Mode(r.0, f) == ToAppAccess(a)
      && (forall h: AccessControl | !h.UnlistedAccessControl? && h != f :: Mode(r.0, h) == Mode(app, h))
      && r.0.chat == app.chat
      && (forall h: AccessControl | !h.UnlistedAccessControl? :: Requested(r.0, h) == Requested(app, h)))
  {
    var shown := ToAppAccess(a);
    var app' :=
      if g.FileTransfer? then app.(fileTransfer := shown)
      else if g.RemoteView? then app.(viewDesktop := shown)
      else if g.RemoteControl? then app.(remoteControl := shown)
      else app;
    (app', [AccessModeChanged])
  }

  /** `setAccessMode`: asks the plugin for the access of a listed feature. */
  function SetAccessMode(app: App, f: AccessControl, a: Access): (r: seq<Effect>)
    ensures r != [] <==> app.hasPlugin && !f.UnlistedAccessControl?
    ensures r != [] ==> r == [CallSetAccessMode(ToPluginAccessControl(f).value, ToPluginAccess(a))]
  {
    if app.hasPlugin && ToPluginAccessControl(f).Some? then [CallSetAccessMode(ToPluginAccessControl(f).value, ToPluginAccess(a))] else []
  }

  /** Asking the plugin for a mode updates the application only through the
      change the plugin emits: on success the feature shows the access the
      agent reported, on failure nothing changes. */
  lemma AccessRefreshedThroughPlugin(app: App, f: AccessControl, channelOk: bool, reported: Ad.Com.Access, prior: Ad.Access)
    requires !f.UnlistedAccessControl?
    ensures var (o, es) := Pl.GetAccessMode(ToPluginAccessControl(f).value, channelOk, reported, prior);
      var after := if es == [] then app else OnAccessModeChanged(app, es[0].feature, es[0].access).0;
      && (o.ok ==> Ad.AccessFromCom(reported) == Some(o.out) && Mode(after, f) == ToAppAccess(o.out))
      && (!o.ok ==> after == app)
  {
  }

  // ---------------------------------------------------------------------
  // Confirmation requests

  /** The access-confirmation handler: raises the request of the feature
      concerned and (re)starts the timer with the timeout in milliseconds,
      computed in 32 bits; every request connects the timer's timeout to
      `confirmationTimeout` once more. */
  function OnAccessConfirmationRequested(app: App, g: Ad.Feature, timeout: nat): (r: (App, seq<Effect>))
    requires timeout < Sh.Uint32Modulus
    ensures r.0.timerRunning && r.0.timeoutConnections == app.timeoutConnections + 1
    ensures r.0.chat == app.chat
    ensures forall h: AccessControl | !h.UnlistedAccessControl? :: Mode(r.0, h) == Mode(app, h)
    ensures forall h: AccessControl | !h.UnlistedAccessControl? :: Requested(r.0, h) == (Requested(app, h) || AccessControlOf(g) == Some(h))
    ensures |r.1| > 0 && r.1[|r.1| - 1] == TimerStarted(Sh.Uint32ToInt(timeout * 1000 % Sh.Uint32Modulus))
    ensures AccessConfirmationRequested in r.1 <==> AccessControlOf(g).Some?
  {
    var app1 :=
      if g.FileTransfer? then app.(fileTransferRequested := true)
      else if g.RemoteView? then app.(viewDesktopRequested := true)
      else if g.RemoteControl? then app.(remoteControlRequested := true)
      else app;
    var signalled := if AccessControlOf(g).Some? then [AccessConfirmationRequested] else [];
    (app1.(timerRunning := true, timeoutConnections := app.timeoutConnections + 1),
     signalled + [TimerStarted(Sh.Uint32ToInt(timeout * 1000 % Sh.Uint32Modulus))])
  }

  /** The timer running out: `confirmationTimeout` runs once per connection,
      clearing every request and signalling each time. */
  function TimerFires(app: App): (r: (App, seq<Effect>))
    ensures !app.timerRunning ==> r == (app, [])
    ensures app.timerRunning ==> (
      && r.0 == app.(fileTransferRequested := false, viewDesktopRequested := false, remoteControlRequested := false, timerRunning := false)
      && |r.1| == app.timeoutConnections
      && forall i :: 0 <= i < |r.1| ==> r.1[i] == AccessConfirmationRequested)
  {
    if !app.timerRunning then (app, [])
    else
      (app.(fileTransferRequested := false, viewDesktopRequested := false, remoteControlRequested := false, timerRunning := false),
       seq(app.timeoutConnections, _ => AccessConfirmationRequested))
  }

  /** The four answers the user interface offers; there is none for remote
      control. */
  datatype Answer = AcceptFileTransfer | AcceptViewDesktop | DenyViewDesktop | DenyFileTransfer

  function AnswerFeature(ans: Answer): AccessControl {
    if ans.AcceptFileTransfer? || ans.DenyFileTransfer? then FileTransfer else AllowPartnerViewDesktop
  }

  function AnswerConfirms(ans: Answer): bool {
    ans.AcceptFileTransfer? || ans.AcceptViewDesktop?
  }

  /** `accept…Request` / `deny…Request`, followed by the queued
      `accessConfirmationReplySlot`: withdraws only its own request and stops
      the timer; the reply reaches the plugin afterwards, because the signal
      is delivered through a queued connection. */
  function AnswerRequest(app: App, ans: Answer): (r: (App, seq<Effect>))
    ensures !app.hasPlugin ==> r == (app, [])
    ensures app.hasPlugin ==> (
      var f := AnswerFeature(ans);
      && !Requested(r.0, f) && !r.0.timerRunning
      && (forall h: AccessControl | !h.UnlistedAccessControl? && h != f :: Requested(r.0, h) == Requested(app, h))
      && (forall h: AccessControl | !h.UnlistedAccessControl? :: Mode(r.0, h) == Mode(app, h))
      && r.0.chat == app.chat && r.0.timeoutConnections == app.timeoutConnections
      && r.1 == [AccessConfirmationRequested, TimerStopped, CallAccessConfirmationReply(ToPluginAccessControl(f).value, AnswerConfirms(ans))])
  {
    if !app.hasPlugin then (app, [])
    else
      var f := AnswerFeature(ans);
      var app1 := if f == FileTransfer then app.(fileTransferRequested := false) else app.(viewDesktopRequested := false);
      (app1.(timerRunning := false),
       [AccessConfirmationRequested, TimerStopped, CallAccessConfirmationReply(ToPluginAccessControl(f).value, AnswerConfirms(ans))])
  }

  /** Answering a request cancels the timeout; a remote-control request is
      withdrawn only by the timeout. */
  lemma AnswerCancelsTimeout(app: App, ans: Answer)
    requires app.hasPlugin
    ensures TimerFires(AnswerRequest(app, ans).0).1 == []
    ensures AnswerRequest(app, ans).0.remoteControlRequested == app.remoteControlRequested
    ensures app.timerRunning ==> !TimerFires(app).0.remoteControlRequested
  {
  }

  /** Each confirmation request adds a connection, so after two requests the
      timeout signals twice. */
  lemma RepeatedRequestsRepeatTimeout(app: App, g1: Ad.Feature, g2: Ad.Feature, t1: nat, t2: nat)
    requires app.timeoutConnections == 0 && t1 < Sh.Uint32Modulus && t2 < Sh.Uint32Modulus
    ensures var a1 := OnAccessConfirmationRequested(app, g1, t1).0;
      var a2 := OnAccessConfirmationRequested(a1, g2, t2).0;
      TimerFires(a2).1 == [AccessConfirmationRequested, AccessConfirmationRequested]
  {
  }

  // ---------------------------------------------------------------------
  // Agent connection

  /** The communication-status handler. Reaching the agent asks the plugin
      for the three access modes and obtains and selects the chats; losing
      it denies every access and clears the chat selection. */
  function OnCommunicationStatus(app: App, connected: bool, obtained: Option<seq<Ad.ChatInfo>>, selectAccepted: bool): (r: (App, seq<Effect>))
    ensures |r.1| > 3 && r.1[|r.1| - 1] == TvCommunicationRunningChanged
    ensures forall h: AccessControl | !h.UnlistedAccessControl? :: Requested(r.0, h) == Requested(app, h)
    ensures connected ==> (
      && r.1[..3] == [CallGetAccessMode(Ad.FileTransfer), CallGetAccessMode(Ad.RemoteView), CallGetAccessMode(Ad.RemoteControl)]
      && r.0 == app.(chat := Sh.ChatConnected(app.chat, obtained, selectAccepted).0))
  {
    if connected then
      var (chat, es) := Sh.ChatConnected(app.chat, obtained, selectAccepted);
      (app.(chat := chat),
       [CallGetAccessMode(Ad.FileTransfer), CallGetAccessMode(Ad.RemoteView), CallGetAccessMode(Ad.RemoteControl)]
       + Lift(es) + [TvCommunicationRunningChanged])
    else
      var (chat, es) := Sh.ChatDisconnected(app.chat);
      (app.(fileTransfer := AppDenied, viewDesktop := AppDenied, remoteControl := AppDenied, chat := chat),
       [AccessModeChanged] + Lift(es) + [TvCommunicationRunningChanged])
  }

  /** Losing the agent denies every access, deselects the chat and restores
      the default title, and says so; pending confirmation requests stay. */
  lemma DisconnectResets(app: App, obtained: Option<seq<Ad.ChatInfo>>, selectAccepted: bool)
    ensures var (a, es) := OnCommunicationStatus(app, false, obtained, selectAccepted);
      && (forall h: AccessControl | !h.UnlistedAccessControl? :: Mode(a, h) == AppDenied)
      && a.chat.selected == Sh.NullUuid && a.chat.title == Sh.DefaultTitle
      && es == [AccessModeChanged, Chat(Sh.ChatTitleChanged), Chat(Sh.ChatSelected), TvCommunicationRunningChanged]
      && a.timerRunning == app.timerRunning
  {
  }
}
