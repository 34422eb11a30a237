/** The Qt remote-control plugin (`TVQtRCPlugin`): its control-mode,
    session and agent-communication flags and the signals they emit, the
    guards in front of the access-control calls, the e-mail check in front of
    an instant-support request, and feature availability from the running
    services bitmask.

    Grabbing and input simulation are reduced to whether each is started;
    the window, screen and geometry plumbing around them is not modelled.
    Each operation returns the new plugin state and, in order, what it
    emitted and what it sent through the communication adapter. */
module TVQtRCPlugin {
  import opened Wrappers
  import Ad = CommunicationAdapter
  import Med = ServicesMediator

  /** Whether grabbing and input simulation are running. */
  datatype RemoteControl = RemoteControl(grabbing: bool, simulating: bool)

  const Idle: RemoteControl := RemoteControl(false, false)

  datatype Plugin = Plugin(
    controlMode: Ad.ControlMode,
    sessionRunning: bool,
    communicationEstablished: bool,
    strategy: Ad.GrabStrategy,
    remote: RemoteControl)

  /** A plugin as constructed. */
  const Initial: Plugin := Plugin(Ad.Disabled, false, false, Ad.NoGrabbing, Idle)

  datatype Effect =
    | SendControlMode(mode: Ad.ControlMode)
    | ControlModeChanged(changedTo: Ad.ControlMode)
    | RemoteControlStarted
    | RemoteControlStopped
    | SendStop
    | CommunicationStatusChanged(established: bool)
    | AccessModeChanged(feature: Ad.Feature, access: Ad.Access)
    | AccessConfirmationRequested(requested: Ad.Feature, timeout: nat)
    | InstantSupportErrorNotified(error: Ad.InstantSupportError)
    | SendInstantSupportRequest(accessToken: string, name: string, group: string, description: string, sessionCode: string, email: string)

  datatype Step = Step(plugin: Plugin, effects: seq<Effect>)

  // ---------------------------------------------------------------------
  // Remote control

  /** `shutdownRemoteControl`. */
  function Shutdown(p: Plugin): (r: Plugin)
    ensures r.remote == Idle
    ensures r == p.(remote := Idle)
  {
    p.(remote := Idle)
  }

  /** What a running session does for a control mode. `inputReady` is
      whether input simulation can start: there is an application window,
      or the virtual-desktop geometry handshake succeeded; when it cannot,
      the simulation is left as it was. An unlisted mode changes nothing. */
  function ApplyControlMode(r: RemoteControl, m: Ad.ControlMode, inputReady: bool): (q: RemoteControl)
    ensures m == Ad.Disabled ==> q == Idle
    ensures m == Ad.ViewOnly ==> q == RemoteControl(true, false)
    ensures m == Ad.FullControl ==> q.grabbing && q.simulating == (inputReady || r.simulating)
    ensures m.UnlistedControlMode? ==> q == r
    ensures q.simulating ==> m == Ad.FullControl || (m.UnlistedControlMode? && r.simulating)
  {
    match m
    case Disabled => Idle
    case ViewOnly => RemoteControl(true, false)
    case FullControl => RemoteControl(true, if inputReady then true else r.simulating)
    case UnlistedControlMode(_) => r
  }

  // ---------------------------------------------------------------------
  // Flags

  /** `setControlMode`. */
  function SetControlMode(p: Plugin, m: Ad.ControlMode, inputReady: bool): (r: Step)
    ensures m == p.controlMode ==> r == Step(p, [])
    ensures m != p.controlMode ==> (
      && r.effects == [SendControlMode(m), ControlModeChanged(m)]
      && r.plugin.controlMode == m
      && r.plugin.sessionRunning == p.sessionRunning
      && r.plugin.communicationEstablished == p.communicationEstablished
      && r.plugin.remote == (if p.sessionRunning then ApplyControlMode(p.remote, m, inputReady) else p.remote))
  {
    if m == p.controlMode then Step(p, [])
    else
      var q := p.(controlMode := m);
      var q' := if q.sessionRunning then q.(remote := ApplyControlMode(q.remote, m, inputReady)) else q;
      Step(q', [SendControlMode(m), ControlModeChanged(m)])
  }

  /** Setting the same mode twice changes and emits nothing the second time. */
  lemma SetControlModeIdempotent(p: Plugin, m: Ad.ControlMode, inputReady: bool)
    ensures var s := SetControlMode(p, m, inputReady);
      SetControlMode(s.plugin, m, inputReady) == Step(s.plugin, [])
  {
  }

  /** Counting the emitted changes of a sequence of mode settings: each
      change emits one signal, so a plugin ends where the last differing
      setting put it. */
  function SetControlModes(p: Plugin, ms: seq<Ad.ControlMode>, inputReady: bool): (r: Step)
    ensures |r.effects| <= 2 * |ms|
    ensures ms != [] ==> r.plugin.controlMode == ms[|ms| - 1]
    ensures ms == [] ==> r == Step(p, [])
    decreases |ms|
  {
    if ms == [] then Step(p, [])
    else
      var s := SetControlMode(p, ms[0], inputReady);
      var t := SetControlModes(s.plugin, ms[1..], inputReady);
      Step(t.plugin, s.effects + t.effects)
  }

  /** `terminateTeamViewerSessions`: unconditional. */
  function TerminateSessions(p: Plugin): (r: Step)
    ensures !r.plugin.sessionRunning && r.plugin.remote == Idle
    ensures r.effects == [RemoteControlStopped, SendStop]
    ensures r.plugin.controlMode == p.controlMode && r.plugin.communicationEstablished == p.communicationEstablished
  {
    Step(Shutdown(p).(sessionRunning := false), [RemoteControlStopped, SendStop])
  }

  /** The reaction to the agent's session-started notification: ignored
      while a session runs; otherwise the session starts, the current mode
      is re-sent and applied. */
  function OnSessionStarted(p: Plugin, strategy: Ad.GrabStrategy, inputReady: bool): (r: Step)
    ensures p.sessionRunning ==> r == Step(p, [])
    ensures !p.sessionRunning ==> (
      && r.plugin.sessionRunning && r.plugin.strategy == strategy
      && r.effects == [RemoteControlStarted, SendControlMode(p.controlMode)]
      && r.plugin.remote == ApplyControlMode(p.remote, p.controlMode, inputReady)
      && r.plugin.controlMode == p.controlMode)
  {
    if p.sessionRunning then Step(p, [])
    else
      var q := p.(strategy := strategy, sessionRunning := true);
      Step(q.(remote := ApplyControlMode(q.remote, q.controlMode, inputReady)), [RemoteControlStarted, SendControlMode(p.controlMode)])
  }

  /** The reaction to the agent's session-stopped notification: ignored
      while no session runs. */
  function OnSessionStopped(p: Plugin): (r: Step)
    ensures !p.sessionRunning ==> r == Step(p, [])
    ensures p.sessionRunning ==> (
      && !r.plugin.sessionRunning && r.plugin.remote == Idle
      && r.effects == [RemoteControlStopped]
      && r.plugin.controlMode == p.controlMode)
  {
    if !p.sessionRunning then Step(p, [])
    else Step(Shutdown(p).(sessionRunning := false), [RemoteControlStopped])
  }

  /** Start and stop notifications alternate their signals: a second start
      or a second stop emits nothing. */
  lemma SessionSignalsAlternate(p: Plugin, s: Ad.GrabStrategy, inputReady: bool)
    ensures OnSessionStarted(OnSessionStarted(p, s, inputReady).plugin, s, inputReady).effects == []
    ensures OnSessionStopped(OnSessionStopped(p).plugin).effects == []
    ensures !p.sessionRunning ==> OnSessionStopped(OnSessionStarted(p, s, inputReady).plugin).effects == [RemoteControlStopped]
  {
  }

  /** No remote control survives the end of a session, whichever way it
      ends. */
  lemma SessionEndStopsRemoteControl(p: Plugin)
    ensures !TerminateSessions(p).plugin.sessionRunning && TerminateSessions(p).plugin.remote == Idle
    ensures !OnSessionStopped(p).plugin.sessionRunning
    ensures p.sessionRunning ==> OnSessionStopped(p).plugin.remote == Idle
  {
  }

  /** `reactOnEstablishedCommunication`. */
  function OnEstablishedCommunication(p: Plugin): (r: Step)
    ensures r.plugin.communicationEstablished
    ensures r.effects == if p.communicationEstablished then [] else [CommunicationStatusChanged(true)]
    ensures r.plugin.remote == p.remote
  {
    if !p.communicationEstablished then Step(p.(communicationEstablished := true), [CommunicationStatusChanged(true)])
    else Step(p, [])
  }

  /** `reactOnLostCommunication`: remote control always stops. */
  function OnLostCommunication(p: Plugin): (r: Step)
    ensures !r.plugin.communicationEstablished && r.plugin.remote == Idle
    ensures r.effects == if p.communicationEstablished then [CommunicationStatusChanged(false)] else []
  {
    var q := Shutdown(p);
    if q.communicationEstablished then Step(q.(communicationEstablished := false), [CommunicationStatusChanged(false)])
    else Step(q, [])
  }

  /** The communication signal fires exactly on a change of the flag, and
      always carries the new value. */
  lemma CommunicationSignalOnChange(p: Plugin, lost: bool)
    ensures var r := if lost then OnLostCommunication(p) else OnEstablishedCommunication(p);
      (r.effects != [] <==> r.plugin.communicationEstablished != p.communicationEstablished)
      && (r.effects != [] ==> r.effects == [CommunicationStatusChanged(r.plugin.communicationEstablished)])
  {
  }

  // ---------------------------------------------------------------------
  // Access control

  /** `isValidAccessControl`. */
  predicate ValidFeature(f: Ad.Feature) {
    !f.UnlistedFeature?
  }

  /** `getAccessMode`: an invalid feature fails without asking the adapter;
      a successful answer is also emitted as a change. */
  function GetAccessMode(f: Ad.Feature, channelOk: bool, reported: Ad.Com.Access, prior: Ad.Access): (r: (Ad.Outcome<Ad.Access>, seq<Effect>))
    ensures !ValidFeature(f) ==> r == (Ad.Outcome(false, prior, None), [])
    ensures r.0.ok <==> ValidFeature(f) && channelOk && !reported.UnlistedAccess?
    ensures r.1 == if r.0.ok then [AccessModeChanged(f, r.0.out)] else []
    ensures r.0.ok ==> Some(r.0.out) == Ad.AccessFromCom(reported)
  {
    if !ValidFeature(f) then (Ad.Outcome(false, prior, None), [])
    else
      var o := Ad.SendGetAccessMode(f, channelOk, reported, prior);
      (o, if o.ok then [AccessModeChanged(f, o.out)] else [])
  }

  /** `setAccessMode`: an invalid feature fails without a call. */
  function SetAccessMode(f: Ad.Feature, a: Ad.Access, channelOk: bool): (r: Ad.Outcome<()>)
    ensures !ValidFeature(f) ==> r == Ad.Outcome(false, (), None)
    ensures r.ok ==> ValidFeature(f) && Ad.AccessToCom(a).Some? && r.call == Some(Ad.SetAccessMode(Ad.FeatureToCom(f).value, Ad.AccessToCom(a).value))
  {
    if ValidFeature(f) then Ad.SendSetAccessMode(f, a, channelOk) else Ad.Outcome(false, (), None)
  }

  /** `accessConfirmationReply`: the reply for an invalid feature is forced
      to a refusal before it reaches the adapter, which sends nothing for
      such a feature anyway. */
  function AccessConfirmationReply(f: Ad.Feature, confirmed: bool, channelOk: bool): (r: Ad.Outcome<()>)
    ensures r.call.Some? <==> ValidFeature(f)
    ensures r.call.Some? ==> r.call.value.ConfirmationReply? && r.call.value.confirmed == confirmed
    ensures r.ok <==> ValidFeature(f) && channelOk
  {
    Ad.SendAccessConfirmationReply(f, ValidFeature(f) && confirmed, channelOk)
  }

  /** `reactOnAccessConfirmationRequest` and `reactOnAccessModeChangeNotifier`:
      passed on for a valid feature only. */
  function OnAccessConfirmationRequest(f: Ad.Feature, timeout: nat): (r: seq<Effect>)
    ensures r != [] <==> ValidFeature(f)
    ensures r != [] ==> r == [AccessConfirmationRequested(f, timeout)]
  {
    if ValidFeature(f) then [AccessConfirmationRequested(f, timeout)] else []
  }

  function OnAccessModeChange(f: Ad.Feature, a: Ad.Access): (r: seq<Effect>)
    ensures r != [] <==> ValidFeature(f)
    ensures r != [] ==> r == [AccessModeChanged(f, a)]
  {
    if ValidFeature(f) then [AccessModeChanged(f, a)] else []
  }

  /** Through the adapter and the plugin, an agent notification reaches the
      application exactly when its feature and access are both listed, and
      with the same values. */
  lemma AccessNotificationEndToEnd(f: Ad.Com.Feature, a: Ad.Com.Access)
    ensures var s := Ad.OnAccessModeChange(f, a);
      var e := if s.Some? then OnAccessModeChange(s.value.feature, s.value.access) else [];
      (e != [] <==> !f.UnlistedFeature? && !a.UnlistedAccess?)
      && (e != [] ==> Ad.FeatureToCom(e[0].feature) == Some(f) && Ad.AccessToCom(e[0].access) == Some(a))
  {
  }

  // ---------------------------------------------------------------------
  // Instant support

  predicate Letter(c: char) {
    'A' <= c <= 'Z' || 'a' <= c <= 'z'
  }

  predicate Alnum(c: char) {
    Letter(c) || '0' <= c <= '9'
  }

  /** A character `\w` matches. */
  predicate WordChar(c: char) {
    Alnum(c) || c == '_'
  }

  /** `[A-Z]` under Qt's case-insensitive option. The pattern is compiled
      in UTF mode, where caseless matching follows Unicode case folding:
      besides the ASCII letters, the Kelvin sign U+212A folds to `k` and
      the long s U+017F folds to `s`. */
  predicate PatternLetter(c: char) {
    Letter(c) || c == '\U{212A}' || c == '\U{017F}'
  }

  /** `[A-Z0-9._%+-]` and `[A-Z0-9.-]`, case-insensitively. */
  predicate LocalChar(c: char) {
    PatternLetter(c) || '0' <= c <= '9' || c == '.' || c == '_' || c == '%' || c == '+' || c == '-'
  }

  predicate DomainChar(c: char) {
    PatternLetter(c) || '0' <= c <= '9' || c == '.' || c == '-'
  }

  /** `\b` at position `k`: a word character on exactly one side. Without
      the Unicode-properties option `\w` stays ASCII, so the two extra
      letters above are not word characters. */
  predicate Boundary(s: string, k: nat)
    requires k <= |s|
  {
    (k > 0 && WordChar(s[k - 1])) != (k < |s| && WordChar(s[k]))
  }

  /** The e-mail pattern matches `s[i..j]`, with the `@` at `at` and the
      last dot at `dot`. */
  predicate EmailAt(s: string, i: int, at: int, dot: int, j: int) {
    && 0 <= i < at && at + 1 < dot && dot + 2 < j && j <= |s|
    && (forall k :: i <= k < at ==> LocalChar(s[k]))
    && s[at] == '@'
    && (forall k :: at < k < dot ==> DomainChar(s[k]))
    && s[dot] == '.'
    && (forall k :: dot < k < j ==> PatternLetter(s[k]))
    && Boundary(s, i) && Boundary(s, j)
  }

  /** The e-mail check's regular expression finds a match somewhere in `s`;
      it is not anchored. */
  predicate EmailMatches(s: string) {
    exists i, at, dot, j | 0 <= i < at < dot < j <= |s| :: EmailAt(s, i, at, dot, j)
  }

  /** `requestInstantSupportV2`: a non-empty address the pattern does not
      find a match in is reported as InvalidEmail and nothing is sent. */
  function RequestInstantSupportV2(accessToken: string, name: string, group: string, description: string, sessionCode: string, email: string, adapterOk: bool): (r: (bool, seq<Effect>))
    ensures email != [] && !EmailMatches(email) ==> r == (false, [InstantSupportErrorNotified(Ad.InvalidEmail)])
    ensures email == [] || EmailMatches(email) ==>
      r == (adapterOk, [SendInstantSupportRequest(accessToken, name, group, description, sessionCode, email)])
  {
    if email != [] && !EmailMatches(email) then (false, [InstantSupportErrorNotified(Ad.InvalidEmail)])
    else (adapterOk, [SendInstantSupportRequest(accessToken, name, group, description, sessionCode, email)])
  }

  /** `requestInstantSupport`: the first version carries no address and so
      is never refused by the check. */
  function RequestInstantSupport(accessToken: string, name: string, group: string, description: string, sessionCode: string, adapterOk: bool): (r: (bool, seq<Effect>))
    ensures r == (adapterOk, [SendInstantSupportRequest(accessToken, name, group, description, sessionCode, "")])
  {
    RequestInstantSupportV2(accessToken, name, group, description, sessionCode, "", adapterOk)
  }

  /** An address without an `@` is refused. */
  lemma {:induction false} NoAtRefused(email: string)
    requires email != [] && forall k :: 0 <= k < |email| ==> email[k] != '@'
    ensures !EmailMatches(email)
    ensures RequestInstantSupportV2("t", "n", "g", "d", "c", email, true).1 == [InstantSupportErrorNotified(Ad.InvalidEmail)]
  {
    forall i, at, dot, j | 0 <= i < at < dot < j <= |email|
      ensures !EmailAt(email, i, at, dot, j)
    {
      assert email[at] != '@';
    }
  }

  /** A plain address passes, and so does text that merely contains one. */
  lemma EmailExamples()
    ensures EmailMatches("a@b.io")
    ensures EmailMatches("x a@b.io!")
    ensures !EmailMatches("a@b.c")
  {
    assert EmailAt("a@b.io", 0, 1, 3, 6);
    assert EmailAt("x a@b.io!", 2, 3, 5, 8);
    var s := "a@b.c";
    forall i, at, dot, j | 0 <= i < at < dot < j <= |s|
      ensures !EmailAt(s, i, at, dot, j)
    {
      assert j <= 5;
    }
  }

  /** The caseless letters that are not ASCII: the Kelvin sign counts as a
      letter of the address, so the request is sent; a long s ending the
      top-level domain is not followed by a word boundary, so that address
      is refused. */
  lemma FoldedLettersExamples()
    ensures EmailMatches("a\U{212A}@b.io")
    ensures RequestInstantSupportV2("t", "n", "g", "d", "c", "a\U{212A}@b.io", true).1
      == [SendInstantSupportRequest("t", "n", "g", "d", "c", "a\U{212A}@b.io")]
    ensures !EmailMatches("a@b.i\U{017F}")
  {
    assert EmailAt("a\U{212A}@b.io", 0, 2, 4, 7);
    var s := "a@b.i\U{017F}";
    forall i, at, dot, j | 0 <= i < at < dot < j <= |s|
      ensures !EmailAt(s, i, at, dot, j)
    {
      assert j <= 6;
    }
  }

  // ---------------------------------------------------------------------
  // Features

  /** `tvqtsdk::Feature`. */
  datatype Feature = AccessControl | InstantSupport | TVSessionManagement | Chat | AugmentRCSession | UnlistedFeature(raw: int)

  /** The two services a feature needs. */
  function FeatureServices(f: Feature): (r: Option<(Med.ServiceType, Med.ServiceType)>)
    ensures r.None? <==> f.UnlistedFeature?
    ensures r.Some? ==> r.value.0 != Med.Unknown && r.value.1 != Med.Unknown && r.value.0 != r.value.1
  {
    match f
    case AccessControl => Some((Med.AccessControlIn, Med.AccessControlOut))
    case InstantSupport => Some((Med.InstantSupport, Med.InstantSupportNotification))
    case TVSessionManagement => Some((Med.SessionControl, Med.SessionStatus))
    case Chat => Some((Med.ChatIn, Med.ChatOut))
    case AugmentRCSession => Some((Med.AugmentRCSessionControl, Med.AugmentRCSessionConsumer))
    case UnlistedFeature(_) => None
  }

  /** `isFeatureAvailable`: both of the feature's service bits are set in the
      running-services bitmask. */
  function IsFeatureAvailable(mask: nat, f: Feature): (r: bool)
    ensures r <==> (
      && FeatureServices(f).Some?
      && Med.Bit(mask, Med.Ordinal(FeatureServices(f).value.0))
      && Med.Bit(mask, Med.Ordinal(FeatureServices(f).value.1)))
  {
    match FeatureServices(f)
    case None => false
    case Some((a, b)) => Med.Bit(mask, Med.Ordinal(a)) && Med.Bit(mask, Med.Ordinal(b))
  }

  /** Read against the mediator: a feature is available exactly when both of
      its services have a client or server running. */
  lemma FeatureAvailableIffRunning(m: Med.Mediator, f: Feature)
    requires !f.UnlistedFeature?
    ensures IsFeatureAvailable(Med.RunningServicesBitmask(m), f)
        <==> Med.Running(m, FeatureServices(f).value.0) && Med.Running(m, FeatureServices(f).value.1)
  {
    var s := FeatureServices(f).value;
    Med.BitmaskBits(m, s.0, 0);
    Med.BitmaskBits(m, s.1, 0);
  }

  /** An unlisted feature is never available, and no feature is available on
      a mediator with nothing running. */
  lemma NothingRunningNothingAvailable(m: Med.Mediator, f: Feature)
    requires m.clients == {} && m.servers == {}
    ensures !IsFeatureAvailable(Med.RunningServicesBitmask(m), f)
    ensures !IsFeatureAvailable(Med.RunningServicesBitmask(m), UnlistedFeature(0))
  {
    if !f.UnlistedFeature? {
      FeatureAvailableIffRunning(m, f);
    }
  }
}
