/** The instant-support module of the agent API: forwarding a support
    request with its arguments normalised, answering connection
    confirmations, and translating the channel's error codes and session
    states into the API's.

    Whether the agent connection is alive and what the channel call returns
    are parameters; each operation returns the channel call it made, if any. */
module InstantSupportModule {
  import opened Wrappers

  /** The communication layer's error code. It is an enum on a 32-bit
      integer, so a value outside the listed ones can arrive as `Unlisted`. */
  datatype ChannelError =
    | ChannelInvalidToken | ChannelInvalidGroup | ChannelInvalidSessionCode
    | ChannelBusy | ChannelInternalError | ChannelInvalidEmail
    | ChannelUnlistedError(raw: int)

  datatype ChannelState = ChannelUndefined | ChannelOpen | ChannelClosed | ChannelUnlistedState(raw: int)

  /** `IInstantSupportModule::RequestErrorCode`. */
  datatype RequestErrorCode = InternalError | InvalidToken | InvalidGroup | InvalidSessionCode | Busy | InvalidEmail

  /** `IInstantSupportModule::SessionState`. */
  datatype SessionState = Undefined | Open | Closed

  function ErrorFromChannel(e: ChannelError): (r: RequestErrorCode)
    ensures e.ChannelUnlistedError? ==> r == InternalError
  {
    match e
    case ChannelInvalidToken => InvalidToken
    case ChannelInvalidGroup => InvalidGroup
    case ChannelInvalidSessionCode => InvalidSessionCode
    case ChannelBusy => Busy
    case ChannelInternalError => InternalError
    case ChannelInvalidEmail => InvalidEmail
    case ChannelUnlistedError(_) => InternalError
  }

  /** The listed channel code each API code stands for; a reference for the
      conversion above, which has no inverse of its own. */
  function ErrorToChannel(r: RequestErrorCode): (e: ChannelError)
    ensures !e.ChannelUnlistedError?
  {
    match r
    case InternalError => ChannelInternalError
    case InvalidToken => ChannelInvalidToken
    case InvalidGroup => ChannelInvalidGroup
    case InvalidSessionCode => ChannelInvalidSessionCode
    case Busy => ChannelBusy
    case InvalidEmail => ChannelInvalidEmail
  }

  /** Listed codes map one-to-one; every API code is reached by exactly one
      listed channel code, and everything unlisted reads as InternalError. */
  lemma ErrorMapping(e: ChannelError, r: RequestErrorCode)
    ensures ErrorFromChannel(ErrorToChannel(r)) == r
    ensures !e.ChannelUnlistedError? ==> ErrorToChannel(ErrorFromChannel(e)) == e
    ensures e.ChannelUnlistedError? ==> ErrorFromChannel(e) == InternalError
  {
  }

  function StateFromChannel(s: ChannelState): (r: SessionState)
    ensures s.ChannelUnlistedState? ==> r == Undefined
  {
    match s
    case ChannelOpen => Open
    case ChannelClosed => Closed
    case ChannelUndefined => Undefined
    case ChannelUnlistedState(_) => Undefined
  }

  function StateToChannel(r: SessionState): (s: ChannelState)
    ensures !s.ChannelUnlistedState?
  {
    match r
    case Undefined => ChannelUndefined
    case Open => ChannelOpen
    case Closed => ChannelClosed
  }

  /** Listed states map one-to-one; unlisted ones read as Undefined. */
  lemma StateMapping(s: ChannelState, r: SessionState)
    ensures StateFromChannel(StateToChannel(r)) == r
    ensures !s.ChannelUnlistedState? ==> StateToChannel(StateFromChannel(s)) == s
  {
  }

  /** The request as the channel receives it: note the session code before
      the email, the reverse of the API's parameter order. */
  datatype ChannelRequest = ChannelRequest(
    accessToken: string, name: string, group: string, description: string, sessionCode: string, email: string)

  /** `requestInstantSupport`: false with no call on an expired connection;
      otherwise null strings become empty ones, the arguments are forwarded
      and the channel's answer is the result. */
  function RequestSupport(
    alive: bool,
    accessToken: Option<string>, name: Option<string>, group: Option<string>,
    description: Option<string>, email: Option<string>, sessionCode: Option<string>,
    channelOk: bool)
    : (r: (bool, Option<ChannelRequest>))
    ensures r.0 <==> alive && channelOk
    ensures r.1.Some? <==> alive
    ensures r.1.Some? ==>
      [r.1.value.accessToken, r.1.value.name, r.1.value.group, r.1.value.description, r.1.value.email, r.1.value.sessionCode]
      == Normalised([accessToken, name, group, description, email, sessionCode])
  {
    if !alive then (false, None)
    else
      var call := ChannelRequest(
        accessToken.GetOr(""), name.GetOr(""), group.GetOr(""), description.GetOr(""),
        sessionCode.GetOr(""), email.GetOr(""));
      (channelOk, Some(call))
  }

  /** Each argument as passed on: a null pointer becomes the empty string. */
  function Normalised(args: seq<Option<string>>): (r: seq<string>)
    ensures |r| == |args|
    ensures forall i :: 0 <= i < |args| ==> (args[i].Some? ==> r[i] == args[i].value) && (args[i].None? ==> r[i] == "")
  {
    seq(|args|, i requires 0 <= i < |args| => args[i].GetOr(""))
  }

  /** The host's answer to a connection confirmation request. */
  datatype Decision = Accept | Reject | Timeout

  datatype Confirmation = Accepted | Denied | NoResponse

  datatype ConnectionType = InstantSupportConnection

  /** The confirmation call on the channel. */
  datatype ConfirmCall = ConfirmCall(connectionType: ConnectionType, confirmation: Confirmation)

  function ConfirmationOf(d: Decision): (c: Confirmation) {
    match d
    case Accept => Accepted
    case Reject => Denied
    case Timeout => NoResponse
  }

  /** `acceptConnectionRequest`, `rejectConnectionRequest` and
      `timeoutConnectionRequest`: false with no call on an expired
      connection, otherwise the channel's answer to the confirmation. */
  function Confirm(d: Decision, alive: bool, channelOk: bool): (r: (bool, Option<ConfirmCall>))
    ensures r.0 <==> alive && channelOk
    ensures r.1.Some? <==> alive
    ensures r.1.Some? ==> r.1.value.connectionType == InstantSupportConnection
  {
    if alive then (channelOk, Some(ConfirmCall(InstantSupportConnection, ConfirmationOf(d)))) else (false, None)
  }

  /** The three answers reach the channel as three different confirmations:
      accept as Accepted, reject as Denied, timeout as NoResponse. */
  lemma ConfirmDistinguishes(d1: Decision, d2: Decision)
    ensures Confirm(d1, true, true).1 == Confirm(d2, true, true).1 ==> d1 == d2
    ensures Confirm(Accept, true, true).1 == Some(ConfirmCall(InstantSupportConnection, Accepted))
    ensures Confirm(Reject, true, true).1 == Some(ConfirmCall(InstantSupportConnection, Denied))
    ensures Confirm(Timeout, true, true).1 == Some(ConfirmCall(InstantSupportConnection, NoResponse))
  {
  }

  /** The session data the channel reports, and as the host receives it. */
  datatype ChannelSessionData = ChannelSessionData(sessionCode: string, name: string, description: string, state: ChannelState)
  datatype SessionData = SessionData(sessionCode: string, name: string, description: string, state: SessionState)

  function ToSessionData(d: ChannelSessionData): (r: SessionData)
    ensures r.sessionCode == d.sessionCode && r.name == d.name && r.description == d.description
    ensures r.state == StateFromChannel(d.state)
  {
    SessionData(d.sessionCode, d.name, d.description, StateFromChannel(d.state))
  }
}
