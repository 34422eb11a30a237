/** The gRPC plumbing every service of the communication layer shares: the
    client side's call pipeline (`AbstractServiceClient::ClientCall`) and the
    server side's (`AbstractServiceServer::ServerCall`).

    The transport is not modelled: what the remote end answers, whether the
    server could be created and what a processing callback reports are
    parameters. The texts of the `TvServiceBase::ErrorMessage_…` constants
    are not part of this model; each is a distinct value of `ErrorMessage`,
    and a message that arrives over the wire is `Text`. */
module ServiceBase {
  import opened Wrappers

  // ---------------------------------------------------------------------
  // Call results

  datatype CallState = Ok | Failed

  datatype ErrorMessage =
    | MissingStartClient
    | InvalidInputParameter
    | InvalidResponseValue
    | UnexpectedEnumValue
    | NoProcessingCallback
    | NoComId
    | ResponseCallbackNotCalled
    | ReadingChunksFailed
    | Text(text: string)

  /** The empty message of a status that carries none. */
  const NoMessage: ErrorMessage := Text("")

  /** `CallStatus`: what every client call and every processing callback
      reports. A default-constructed one carries no message. */
  datatype CallStatus = CallStatus(state: CallState, errorMessage: ErrorMessage)
  {
    predicate IsOk() { state == Ok }
  }

  const Succeeded: CallStatus := CallStatus(Ok, NoMessage)

  /** The gRPC status codes the communication layer produces, plus any other
      a peer may send. */
  datatype StatusCode = OK | CANCELLED | INTERNAL | UNAVAILABLE | FAILED_PRECONDITION | ABORTED | OtherCode(raw: int)

  /** `::grpc::Status`. */
  datatype Status = Status(code: StatusCode, message: ErrorMessage)
  {
    predicate ok() { code == OK }
  }

  const StatusOk: Status := Status(OK, NoMessage)

  // ---------------------------------------------------------------------
  // Client

  /** A service client: the destination it was last started with and
      whether it holds a channel and a stub. */
  datatype Client = Client(destination: string, connected: bool)

  /** A client as constructed: never started. */
  const NewClient: Client := Client("", false)

  /** `StartClient`: remembers the destination and creates channel and stub. */
  function StartClient(c: Client, destination: string): (r: Client)
    ensures r.connected && r.destination == destination
  {
    Client(destination, true)
  }

  /** `StopClient`: drops channel and stub; the destination stays. */
  function StopClient(c: Client): (r: Client)
    ensures !r.connected && r.destination == c.destination
  {
    c.(connected := false)
  }

  /** `DefaultMeta::ValidateInput`: a call needs a communication id. */
  predicate DefaultValid(comId: string) {
    comId != []
  }

  /** `DefaultMeta::HandleResponse`: a transport success is an `Ok` call, and
      anything else fails with the status's own message. */
  function HandleResponse(s: Status): (r: CallStatus)
    ensures r.IsOk() <==> s.ok()
    ensures !r.IsOk() ==> r.errorMessage == s.message
  {
    if s.ok() then Succeeded else CallStatus(Failed, s.message)
  }

  /** A client call: the status it returns and the request it put on the
      wire, if it got that far. */
  datatype Sent<Req> = Sent(status: CallStatus, request: Option<Req>)

  /** `ClientCall`: an unstarted client fails before anything else, then the
      service's input validation, and only then is the request sent and the
      remote `answer` handled by `handle` (the service's `HandleResponse`). */
  function ClientCall<Req, R>(c: Client, valid: bool, request: Req, answer: Status, handle: Status -> R, fail: ErrorMessage -> R): (r: (R, Option<Req>))
    ensures r.1.Some? <==> c.connected && valid
    ensures r.1.Some? ==> r.1.value == request && r.0 == handle(answer)
    ensures !c.connected ==> r.0 == fail(MissingStartClient)
    ensures c.connected && !valid ==> r.0 == fail(InvalidInputParameter)
  {
    if !c.connected then (fail(MissingStartClient), None)
    else if !valid then (fail(InvalidInputParameter), None)
    else (handle(answer), Some(request))
  }

  function FailWith(m: ErrorMessage): CallStatus {
    CallStatus(Failed, m)
  }

  /** `ClientCall` with `DefaultMeta`'s result handling. */
  function DefaultCall<Req>(c: Client, valid: bool, request: Req, answer: Status): (r: Sent<Req>)
    ensures r.status.IsOk() ==> r.request == Some(request) && answer.ok()
    ensures r.request.Some? <==> c.connected && valid
    ensures r.status.errorMessage == MissingStartClient <==> !c.connected || (valid && answer.message == MissingStartClient && !answer.ok())
  {
    var (s, q) := ClientCall(c, valid, request, answer, HandleResponse, FailWith);
    Sent(s, q)
  }

  /** A stopped client sends nothing, whatever the call. */
  lemma StoppedClientSendsNothing<Req>(c: Client, valid: bool, request: Req, answer: Status)
    ensures DefaultCall(StopClient(c), valid, request, answer) == Sent(FailWith(MissingStartClient), None)
    ensures DefaultCall(NewClient, valid, request, answer) == Sent(FailWith(MissingStartClient), None)
  {
  }

  /** A started client sends every valid request, and its result is the
      remote answer's. */
  lemma StartedClientSends<Req>(c: Client, destination: string, request: Req, answer: Status)
    ensures DefaultCall(StartClient(c, destination), true, request, answer) == Sent(HandleResponse(answer), Some(request))
    ensures DefaultCall(StartClient(c, destination), false, request, answer) == Sent(FailWith(InvalidInputParameter), None)
  {
  }

  // ---------------------------------------------------------------------
  // Server

  /** A service server: the location it was last started at and whether it
      holds a running gRPC server. */
  datatype Server = Server(location: string, running: bool)

  /** `StartServer`: `created` is whether gRPC could build and start the
      server; the result is that, and the location is kept either way. */
  function StartServer(s: Server, location: string, created: bool): (r: (bool, Server))
    ensures r.0 == created && r.1.running == created && r.1.location == location
  {
    (created, Server(location, created))
  }

  /** `StopServer`: shuts a running server down; stopping twice is harmless. */
  function StopServer(s: Server): (r: Server)
    ensures !r.running && r.location == s.location
  {
    s.(running := false)
  }

  lemma StopServerIdempotent(s: Server)
    ensures StopServer(StopServer(s)) == StopServer(s)
    ensures StopServer(StartServer(s, s.location, true).1) == StopServer(s)
  {
  }

  /** The callback table: one optional callback per slot of the service's
      callback enum. */
  type Callbacks<C> = seq<Option<C>>

  /** `SetCallback`: installs `cb` in slot `i` and leaves the others alone. */
  function SetCallback<C>(cbs: Callbacks<C>, i: nat, cb: Option<C>): (r: Callbacks<C>)
    requires i < |cbs|
    ensures |r| == |cbs| && r[i] == cb
    ensures forall j :: 0 <= j < |cbs| && j != i ==> r[j] == cbs[j]
  {
    cbs[i := cb]
  }

  /** `MakeResponseProcessing`: a callback's `Ok` becomes `OK`, any failure
      `ABORTED` with the callback's message. */
  function ResponseStatus(cs: CallStatus): (r: Status)
    ensures r.ok() <==> cs.IsOk()
    ensures !r.ok() ==> r.code == ABORTED && r.message == cs.errorMessage
  {
    if cs.IsOk() then StatusOk else Status(ABORTED, cs.errorMessage)
  }

  /** The status before the callback reports. */
  const NotCalled: Status := Status(CANCELLED, ResponseCallbackNotCalled)

  /** The result of a server call: the status returned to the client and the
      communication id the processing callback was invoked with, if it was. */
  datatype Served = Served(status: Status, invokedWith: Option<string>)

  /** `ServerCall`. `argsPresent` is whether context, request and response
      are non-null, `validation` the service's `ValidateRequest`, `comId` the
      client's metadata entry, and `report` what the callback last passed to
      its response processing (None when it never did). */
  function ServerCall<C>(argsPresent: bool, callback: Option<C>, validation: Status, comId: Option<string>, report: Option<CallStatus>): (r: Served)
    ensures r.invokedWith.Some? <==> argsPresent && callback.Some? && validation.ok() && comId.Some?
    ensures r.invokedWith.Some? ==> r.invokedWith == comId
    ensures !argsPresent ==> r.status == Status(INTERNAL, NoMessage)
    ensures argsPresent && callback.None? ==> r.status == Status(UNAVAILABLE, NoProcessingCallback)
    ensures argsPresent && callback.Some? && !validation.ok() ==> r.status == validation
    ensures argsPresent && callback.Some? && validation.ok() && comId.None? ==> r.status == Status(FAILED_PRECONDITION, NoComId)
  {
    if !argsPresent then Served(Status(INTERNAL, NoMessage), None)
    else if callback.None? then Served(Status(UNAVAILABLE, NoProcessingCallback), None)
    else if !validation.ok() then Served(validation, None)
    else if comId.None? then Served(Status(FAILED_PRECONDITION, NoComId), None)
    else Served(if report.Some? then ResponseStatus(report.value) else NotCalled, comId)
  }

  /** A served call succeeds exactly when the callback was reached and
      reported success; a callback that never reports leaves the call
      cancelled. */
  lemma ServerCallOutcome<C>(argsPresent: bool, callback: Option<C>, validation: Status, comId: Option<string>, report: Option<CallStatus>)
    ensures ServerCall(argsPresent, callback, validation, comId, report).status.ok()
        <==> ServerCall(argsPresent, callback, validation, comId, report).invokedWith.Some? && report.Some? && report.value.IsOk()
    ensures ServerCall(argsPresent, callback, validation, comId, report).invokedWith.Some? && report.None?
        ==> ServerCall(argsPresent, callback, validation, comId, report).status == NotCalled
  {
  }

  /** Installing a callback in a slot is what makes a server call reach it. */
  lemma InstalledCallbackReached<C>(cbs: Callbacks<C>, i: nat, cb: C, comId: string, report: Option<CallStatus>)
    requires i < |cbs|
    ensures ServerCall(true, SetCallback(cbs, i, Some(cb))[i], StatusOk, Some(comId), report).invokedWith == Some(comId)
    ensures ServerCall(true, SetCallback(cbs, i, None)[i], StatusOk, Some(comId), report).status == Status(UNAVAILABLE, NoProcessingCallback)
  {
  }

  /** End to end: what a server's callback reports is what the client's
      default result handling returns — its state, and its message when it
      failed. */
  lemma CallbackReportReachesClient(cs: CallStatus)
    ensures HandleResponse(ResponseStatus(cs)).state == cs.state
    ensures !cs.IsOk() ==> HandleResponse(ResponseStatus(cs)) == cs
  {
  }
}
