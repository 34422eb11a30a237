/** The `AppModel` of the simulating Qt example (`examples/Qt/qtsimulate`):
    access modes kept in a map per feature, refreshed from the plugin when
    the agent is reached, confirmation requests passed on to the user
    interface, and the switch that listens for AugmentRC session
    invitations. The chat part is `QtAppShared.ChatView`.

    The plugin is the `TVQtRCPlugin` model. It emits `accessModeChanged`
    from inside `getAccessMode`, on the application's own thread, so the
    application's handler runs before `getAccessMode` returns; the model
    applies it at that point. */
module QtSimulateAppModel {
  import opened Wrappers
  import Ad = CommunicationAdapter
  import Pl = TVQtRCPlugin
  import Sh = QtAppShared

  // ---------------------------------------------------------------------
  // Values

  /** `AppModel::Access`, with `Access_Unknown` (-1) for a mode not known;
      an integer from QML that is none of the four is `UnlistedAppAccess`. */
  datatype Access = AccessUnknown | AppAllowed | AppAfterConfirmation | AppDenied | UnlistedAppAccess(raw: int)

  /** `AppModel::AccessControl`. */
  datatype AccessControl = FileTransfer | RemoteView | RemoteControl | ScreenRecording | UnlistedAccessControl(raw: int)

  /** `toAppAccessValue`: an access the plugin does not list is unknown. */
  function ToAppAccess(a: Ad.Access): (r: Access)
    ensures r != AccessUnknown <==> !a.UnlistedAccess?
    ensures !r.UnlistedAppAccess?
  {
    match a
    case Allowed => AppAllowed
    case AfterConfirmation => AppAfterConfirmation
    case Denied => AppDenied
    case UnlistedAccess(_) => AccessUnknown
  }

  /** `toPluginAccessValue`: unknown and unlisted accesses request denial. */
  function ToPluginAccess(a: Access): (r: Ad.Access)
    ensures !r.UnlistedAccess?
    ensures a.AccessUnknown? || a.UnlistedAppAccess? ==> r == Ad.Denied
  {
    match a
    case AppAllowed => Ad.Allowed
    case AppAfterConfirmation => Ad.AfterConfirmation
    case AppDenied => Ad.Denied
    case AccessUnknown => Ad.Denied
    case UnlistedAppAccess(_) => Ad.Denied
  }

  /** `toPluginAccessControlValue`: the four listed features convert. */
  function ToPluginAccessControl(f: AccessControl): (r: Option<Ad.Feature>)
    ensures r.Some? <==> !f.UnlistedAccessControl?
  {
    match f
    case FileTransfer => Some(Ad.FileTransfer)
    case RemoteView => Some(Ad.RemoteView)
    case RemoteControl => Some(Ad.RemoteControl)
    case ScreenRecording => Some(Ad.ScreenRecording)
    case UnlistedAccessControl(_) => None
  }

  /** `toAppAccessControlValue`: the four listed features convert. */
  function ToAppAccessControl(g: Ad.Feature): (r: Option<AccessControl>)
    ensures r.Some? <==> !g.UnlistedFeature?
  {
    match g
    case FileTransfer => Some(FileTransfer)
    case RemoteView => Some(RemoteView)
    case RemoteControl => Some(RemoteControl)
    case ScreenRecording => Some(ScreenRecording)
    case UnlistedFeature(_) => None
  }

  /** The feature conversions are inverse in both directions, and so are
      the access conversions on the three accesses both sides list. */
  lemma ConversionsRoundTrip(f: AccessControl, g: Ad.Feature, a: Access, b: Ad.Access)
    ensures ToPluginAccessControl(f).Some? ==> ToAppAccessControl(ToPluginAccessControl(f).value) == Some(f)
    ensures ToAppAccessControl(g).Some? ==> ToPluginAccessControl(ToAppAccessControl(g).value) == Some(g)
    ensures !a.AccessUnknown? && !a.UnlistedAppAccess? ==> ToAppAccess(ToPluginAccess(a)) == a
    ensures !b.UnlistedAccess? ==> ToPluginAccess(ToAppAccess(b)) == b
  {
  }

  // ---------------------------------------------------------------------
  // State

  datatype App = App(hasPlugin: bool, chat: Sh.ChatView, accessModes: map<AccessControl, Access>, listening: bool)

  /** An application model as constructed: no access known, not listening. */
  function Initial(hasPlugin: bool, chatGiven: bool): (r: App)
    ensures r.chat.hasChat ==> r.hasPlugin
    ensures forall f :: GetAccessMode(r, f) == AccessUnknown
    ensures !r.listening
  {
    App(hasPlugin, Sh.InitialChatView(hasPlugin && chatGiven), map[], false)
  }

  /** `getAccessMode`: the stored mode, unknown for a feature never set. */
  function GetAccessMode(app: App, f: AccessControl): (r: Access)
    ensures f !in app.accessModes ==> r == AccessUnknown
    ensures f in app.accessModes ==> r == app.accessModes[f]
  {
    if f in app.accessModes then app.accessModes[f] else AccessUnknown
  }

  /** Signals to the user interface and calls on the plugin. */
  datatype Effect =
    | Chat(e: Sh.ChatEffect)
    | AccessModeChangedFor(feature: AccessControl)
    | AccessControlConfirmationRequested(requested: AccessControl, timeoutMs: int)
    | TvCommunicationRunningChanged
    | CallSetAccessMode(setFeature: Ad.Feature, access: Ad.Access)
    | CallAccessConfirmationReply(replyFeature: Ad.Feature, confirmed: bool)
    | CallStartListening
    | CallStopListening
    | IsListeningForInviteChanged

  function Lift(es: seq<Sh.ChatEffect>): (r: seq<Effect>)
    ensures |r| == |es| && forall i :: 0 <= i < |es| ==> r[i] == Chat(es[i])
  {
    seq(|es|, i requires 0 <= i < |es| => Chat(es[i]))
  }

  // ---------------------------------------------------------------------
  // Access modes

  /** The access-change handler: a listed feature takes the plugin's access
      and its change is signalled; anything else is ignored. */
  function OnAccessModeChanged(app: App, g: Ad.Feature, a: Ad.Access): (r: (App, seq<Effect>))
    ensures ToAppAccessControl(g).None? ==> r == (app, [])
    ensures ToAppAccessControl(g).Some? ==> (
      var f := ToAppAccessControl(g).value;
      && r.0 == app.(accessModes := app.accessModes[f := ToAppAccess(a)])
      && r.1 == [AccessModeChangedFor(f)])
  {
    match ToAppAccessControl(g)
    case None => (app, [])
    case Some(f) => (app.(accessModes := app.accessModes[f := ToAppAccess(a)]), [AccessModeChangedFor(f)])
  }

  /** `updateAccessMode`. The plugin's answer reaches the access-change
      handler first (see the module comment); then the stored mode is read
      with `operator[]`, which would insert `Access_Allowed` (the value 0)
      for a feature not yet in the map, and a differing answer is stored and
      signalled. */
  function UpdateAccessMode(app: App, f: AccessControl, channelOk: bool, reported: Ad.Com.Access): (r: (App, seq<Effect>))
    ensures r.0.chat == app.chat && r.0.listening == app.listening && r.0.hasPlugin == app.hasPlugin
    ensures forall g :: g != f ==> GetAccessMode(r.0, g) == GetAccessMode(app, g)
    ensures forall i :: 0 <= i < |r.1| ==> r.1[i] == AccessModeChangedFor(f)
  {
    if !app.hasPlugin || ToPluginAccessControl(f).None? then (app, [])
    else
      var (o, signalled) := Pl.GetAccessMode(ToPluginAccessControl(f).value, channelOk, reported, Ad.Denied);
      var (app1, handled) := if signalled == [] then (app, []) else OnAccessModeChanged(app, signalled[0].feature, signalled[0].access);
      if !o.ok then (app1, handled)
      else
        var oldValue := if f in app1.accessModes then app1.accessModes[f] else AppAllowed;
        var newValue := ToAppAccess(o.out);
        if oldValue != newValue then (app1.(accessModes := app1.accessModes[f := newValue]), handled + [AccessModeChangedFor(f)])
        else (app1.(accessModes := app1.accessModes[f := oldValue]), handled)
  }

  /** A refresh either fails and changes nothing, or stores the access the
      agent reported and signals the change exactly once — through the
      handler, so the comparison in `updateAccessMode` never sees the
      default `operator[]` would insert. */
  lemma UpdateAccessModeOutcome(app: App, f: AccessControl, channelOk: bool, reported: Ad.Com.Access)
    ensures var r := UpdateAccessMode(app, f, channelOk, reported);
      var ok := app.hasPlugin && !f.UnlistedAccessControl? && channelOk && !reported.UnlistedAccess?;
      && (!ok ==> r == (app, []))
      && (ok ==> (
        && Ad.AccessFromCom(reported).Some?
        && r.0 == app.(accessModes := app.accessModes[f := ToAppAccess(Ad.AccessFromCom(reported).value)])
        && GetAccessMode(r.0, f) != AccessUnknown
        && r.1 == [AccessModeChangedFor(f)]))
  {
    if app.hasPlugin && !f.UnlistedAccessControl? {
      ConversionsRoundTrip(f, ToPluginAccessControl(f).value, AccessUnknown, Ad.Denied);
    }
  }

  /** `setAccessMode`: asks the plugin for the access of a listed feature. */
  function SetAccessMode(app: App, f: AccessControl, a: Access): (r: seq<Effect>)
    ensures r != [] <==> app.hasPlugin && !f.UnlistedAccessControl?
    ensures r != [] ==> r == [CallSetAccessMode(ToPluginAccessControl(f).value, ToPluginAccess(a))]
  {
    if app.hasPlugin && ToPluginAccessControl(f).Some? then [CallSetAccessMode(ToPluginAccessControl(f).value, ToPluginAccess(a))] else []
  }

  /** The confirmation-request handler: passes a listed feature's request on
      with its timeout, a `uint32_t` cast to `int`. */
  function OnAccessConfirmationRequested(g: Ad.Feature, timeoutMs: nat): (r: seq<Effect>)
    requires timeoutMs < Sh.Uint32Modulus
    ensures r != [] <==> !g.UnlistedFeature?
    ensures r != [] ==> r == [AccessControlConfirmationRequested(ToAppAccessControl(g).value, Sh.Uint32ToInt(timeoutMs))]
  {
    match ToAppAccessControl(g)
    case None => []
    case Some(f) => [AccessControlConfirmationRequested(f, Sh.Uint32ToInt(timeoutMs))]
  }

  /** `replyAccessControlRequest`: the user's answer for a listed feature
      goes to the plugin. */
  function ReplyAccessControlRequest(app: App, f: AccessControl, confirmed: bool): (r: seq<Effect>)
    ensures r != [] <==> app.hasPlugin && !f.UnlistedAccessControl?
    ensures r != [] ==> r == [CallAccessConfirmationReply(ToPluginAccessControl(f).value, confirmed)]
  {
    if app.hasPlugin && ToPluginAccessControl(f).Some? then [CallAccessConfirmationReply(ToPluginAccessControl(f).value, confirmed)] else []
  }

  /** A request the plugin passes on comes back, answered, for the same
      plugin feature. */
  lemma ConfirmationAnsweredForSameFeature(app: App, g: Ad.Feature, timeoutMs: nat, confirmed: bool)
    requires timeoutMs < Sh.Uint32Modulus && app.hasPlugin && !g.UnlistedFeature?
    ensures var e := OnAccessConfirmationRequested(g, timeoutMs)[0];
      ReplyAccessControlRequest(app, e.requested, confirmed) == [CallAccessConfirmationReply(g, confirmed)]
  {
    ConversionsRoundTrip(UnlistedAccessControl(0), g, AccessUnknown, Ad.Denied);
  }

  // ---------------------------------------------------------------------
  // Listening for AugmentRC session invitations

  /** `resendIsListeningForAugmentRCSessionInvite`: tells the plugin to start
      or stop listening, as the flag says. */
  function ResendListening(app: App): (r: seq<Effect>)
    ensures r != [] <==> app.hasPlugin
    ensures r != [] ==> r == [if app.listening then CallStartListening else CallStopListening]
  {
    if app.hasPlugin then [if app.listening then CallStartListening else CallStopListening] else []
  }

  /** The listening setter: acts only on a change, then re-sends and
      signals. */
  function SetListening(app: App, listening: bool): (r: (App, seq<Effect>))
    ensures r.0 == app.(listening := listening)
    ensures app.listening == listening ==> r.1 == []
    ensures app.listening != listening ==> r.1 == ResendListening(r.0) + [IsListeningForInviteChanged]
  {
    if app.listening != listening then
      var app1 := app.(listening := listening);
      (app1, ResendListening(app1) + [IsListeningForInviteChanged])
    else (app, [])
  }

  /** Setting the flag twice acts once, and turning it on then off tells the
      plugin to start and then to stop. */
  lemma ListeningToggle(app: App, b: bool)
    ensures var (a1, e1) := SetListening(app, b);
      SetListening(a1, b) == (a1, [])
    ensures app.hasPlugin && !app.listening ==> (
      var (a1, e1) := SetListening(app, true);
      var (a2, e2) := SetListening(a1, false);
      e1 + e2 == [CallStartListening, IsListeningForInviteChanged, CallStopListening, IsListeningForInviteChanged])
  {
  }

  // ---------------------------------------------------------------------
  // Agent connection

  /** The four features, in the order the communication handler refreshes
      them. */
  const Refreshed: seq<AccessControl> := [FileTransfer, RemoteView, RemoteControl, ScreenRecording]

  /** Refreshes the features of `fs` in turn, the i-th with the agent's i-th
      report. */
  function UpdateAccessModes(app: App, fs: seq<AccessControl>, channelOk: bool, reports: seq<Ad.Com.Access>): (r: (App, seq<Effect>))
    requires |reports| == |fs|
    ensures r.0.chat == app.chat && r.0.listening == app.listening && r.0.hasPlugin == app.hasPlugin
    ensures forall g :: g !in fs ==> GetAccessMode(r.0, g) == GetAccessMode(app, g)
    ensures forall i :: 0 <= i < |r.1| ==> r.1[i].AccessModeChangedFor? && r.1[i].feature in fs
    decreases |fs|
  {
    if fs == [] then (app, [])
    else
      var (a1, e1) := UpdateAccessMode(app, fs[0], channelOk, reports[0]);
      var (a2, e2) := UpdateAccessModes(a1, fs[1..], channelOk, reports[1..]);
      (a2, e1 + e2)
  }

  /** With a working channel, every refreshed feature ends up showing what
      the agent last reported for it, and the others keep their modes. */
  lemma {:induction false} UpdateAccessModesStore(app: App, fs: seq<AccessControl>, channelOk: bool, reports: seq<Ad.Com.Access>)
    requires |reports| == |fs| && app.hasPlugin && channelOk
    requires forall i :: 0 <= i < |fs| ==> !fs[i].UnlistedAccessControl? && !reports[i].UnlistedAccess?
    ensures var a := UpdateAccessModes(app, fs, channelOk, reports).0;
      && a.chat == app.chat && a.listening == app.listening && a.hasPlugin
      && (forall f :: f !in fs ==> GetAccessMode(a, f) == GetAccessMode(app, f))
      && (forall i :: 0 <= i < |fs| && fs[i] !in fs[i + 1..] ==> GetAccessMode(a, fs[i]) == ToAppAccess(Ad.AccessFromCom(reports[i]).value))
    decreases |fs|
  {
    if fs != [] {
      UpdateAccessModeOutcome(app, fs[0], channelOk, reports[0]);
      var a1 := UpdateAccessMode(app, fs[0], channelOk, reports[0]).0;
      UpdateAccessModesStore(a1, fs[1..], channelOk, reports[1..]);
      var a := UpdateAccessModes(app, fs, channelOk, reports).0;
      forall i | 0 <= i < |fs| && fs[i] !in fs[i + 1..]
        ensures GetAccessMode(a, fs[i]) == ToAppAccess(Ad.AccessFromCom(reports[i]).value)
      {
        if i > 0 {
          assert fs[1..][i - 1] == fs[i] && fs[1..][i..] == fs[i + 1..] && reports[1..][i - 1] == reports[i];
        } else {
          assert fs[0] !in fs[1..];
        }
      }
    }
  }

  /** The communication-status handler. Reaching the agent refreshes the
      four access modes, obtains and selects the chats, and re-sends the
      listening flag; losing it only clears the chat selection. */
  function OnCommunicationStatus(app: App, connected: bool, channelOk: bool, reports: seq<Ad.Com.Access>, obtained: Option<seq<Ad.ChatInfo>>, selectAccepted: bool): (r: (App, seq<Effect>))
    requires |reports| == |Refreshed|
    ensures r.0.listening == app.listening && r.0.hasPlugin == app.hasPlugin
    ensures !connected ==> r.0.accessModes == app.accessModes
    ensures r.1 != [] && r.1[|r.1| - 1] == TvCommunicationRunningChanged
    ensures connected && app.hasPlugin ==>
      |r.1| >= 2 && r.1[|r.1| - 2] == (if app.listening then CallStartListening else CallStopListening)
  {
    if connected then
      var (a1, e1) := UpdateAccessModes(app, Refreshed, channelOk, reports);
      var (chat, e2) := Sh.ChatConnected(a1.chat, obtained, selectAccepted);
      var a2 := a1.(chat := chat);
      (a2, e1 + Lift(e2) + ResendListening(a2) + [TvCommunicationRunningChanged])
    else
      var (chat, es) := Sh.ChatDisconnected(app.chat);
      (app.(chat := chat), Lift(es) + [TvCommunicationRunningChanged])
  }

  /** Losing the agent keeps the access modes and the listening flag,
      unlike the other example, and clears the chat selection. */
  lemma DisconnectKeepsAccessModes(app: App, channelOk: bool, reports: seq<Ad.Com.Access>, obtained: Option<seq<Ad.ChatInfo>>, selectAccepted: bool)
    requires |reports| == |Refreshed|
    ensures var (a, es) := OnCommunicationStatus(app, false, channelOk, reports, obtained, selectAccepted);
      && a.accessModes == app.accessModes && a.listening == app.listening
      && a.chat.selected == Sh.NullUuid && a.chat.title == Sh.DefaultTitle
      && es == [Chat(Sh.ChatTitleChanged), Chat(Sh.ChatSelected), TvCommunicationRunningChanged]
  {
  }

  /** Reaching the agent over a working channel makes every feature show
      what the agent reported and tells the plugin the listening flag
      again. */
  lemma ConnectRefreshesAccessModes(app: App, channelOk: bool, reports: seq<Ad.Com.Access>, obtained: Option<seq<Ad.ChatInfo>>, selectAccepted: bool)
    requires |reports| == |Refreshed| && app.hasPlugin && channelOk
    requires forall i :: 0 <= i < |reports| ==> !reports[i].UnlistedAccess?
    ensures var r := OnCommunicationStatus(app, true, channelOk, reports, obtained, selectAccepted);
      && (forall i :: 0 <= i < |Refreshed| ==> GetAccessMode(r.0, Refreshed[i]) == ToAppAccess(Ad.AccessFromCom(reports[i]).value))
      && r.0.listening == app.listening
      && |r.1| >= 2 && r.1[|r.1| - 2] == (if app.listening then CallStartListening else CallStopListening)
  {
    ConnectedModes(app, channelOk, reports, obtained, selectAccepted);
  }

  /** Connecting touches the access modes only through the refresh. */
  lemma ConnectedModes(app: App, channelOk: bool, reports: seq<Ad.Com.Access>, obtained: Option<seq<Ad.ChatInfo>>, selectAccepted: bool)
    requires |reports| == |Refreshed| && app.hasPlugin && channelOk
    requires forall i :: 0 <= i < |reports| ==> !reports[i].UnlistedAccess?
    ensures var a := OnCommunicationStatus(app, true, channelOk, reports, obtained, selectAccepted).0;
      forall i :: 0 <= i < |Refreshed| ==> GetAccessMode(a, Refreshed[i]) == ToAppAccess(Ad.AccessFromCom(reports[i]).value)
  {
    var a := OnCommunicationStatus(app, true, channelOk, reports, obtained, selectAccepted).0;
    var u := UpdateAccessModes(app, Refreshed, channelOk, reports).0;
    assert a.accessModes == u.accessModes;
    RefreshedModes(app, channelOk, reports);
    SameModes(a, u);
  }

  lemma SameModes(a: App, b: App)
    requires a.accessModes == b.accessModes
    ensures forall f :: GetAccessMode(a, f) == GetAccessMode(b, f)
  {
  }

  /** Refreshing the listed features stores each one's report. */
  lemma RefreshedModes(app: App, channelOk: bool, reports: seq<Ad.Com.Access>)
    requires |reports| == |Refreshed| && app.hasPlugin && channelOk
    requires forall i :: 0 <= i < |reports| ==> !reports[i].UnlistedAccess?
    ensures var a := UpdateAccessModes(app, Refreshed, channelOk, reports).0;
      && a.hasPlugin && a.listening == app.listening
      && forall i :: 0 <= i < |Refreshed| ==> GetAccessMode(a, Refreshed[i]) == ToAppAccess(Ad.AccessFromCom(reports[i]).value)
  {
    RefreshedDistinct();
    UpdateAccessModesStore(app, Refreshed, channelOk, reports);
  }

  /** After the refresh, connecting touches only the chat part and ends by
      re-sending the listening state and the running notification. */
  lemma ConnectKeepsModes(app: App, channelOk: bool, reports: seq<Ad.Com.Access>, obtained: Option<seq<Ad.ChatInfo>>, selectAccepted: bool)
    requires |reports| == |Refreshed|
    requires UpdateAccessModes(app, Refreshed, channelOk, reports).0.hasPlugin
    ensures var (a, es) := OnCommunicationStatus(app, true, channelOk, reports, obtained, selectAccepted);
      var u := UpdateAccessModes(app, Refreshed, channelOk, reports).0;
      && a.accessModes == u.accessModes && a.listening == u.listening
      && |es| >= 2 && es[|es| - 2] == (if u.listening then CallStartListening else CallStopListening)
  {
    var (a1, e1) := UpdateAccessModes(app, Refreshed, channelOk, reports);
    var (chat, e2) := Sh.ChatConnected(a1.chat, obtained, selectAccepted);
    var a2 := a1.(chat := chat);
    LastButOne(e1 + Lift(e2), ResendListening(a2)[0], TvCommunicationRunningChanged);
  }

  /** Each refreshed feature is listed once, and none is an unlisted one. */
  lemma RefreshedDistinct()
    ensures forall i :: 0 <= i < |Refreshed| ==> Refreshed[i] !in Refreshed[i + 1..]
    ensures forall i :: 0 <= i < |Refreshed| ==> !Refreshed[i].UnlistedAccessControl?
  {
    assert Refreshed[1..] == [RemoteView, RemoteControl, ScreenRecording];
    assert Refreshed[2..] == [RemoteControl, ScreenRecording];
    assert Refreshed[3..] == [ScreenRecording];
    assert Refreshed[4..] == [];
  }

  lemma LastButOne<T>(p: seq<T>, x: T, y: T)
    ensures |p + [x] + [y]| >= 2 && (p + [x] + [y])[|p + [x] + [y]| - 2] == x
  {
  }
}
