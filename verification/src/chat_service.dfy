/** The chat service clients of the communication layer: `ChatOutServiceClient`
    (the agent side telling the SDK about chats and messages) and
    `ChatInServiceClient` (the SDK side asking the agent), as far as they
    validate their input, fill their request and decode their response.

    Each call returns the request it put on the wire, if any, alongside its
    status; the remote answer is a parameter. */
module ChatService {
  import opened Wrappers
  import opened ServiceBase

  /** `ChatService::ChatType`; a C++ enum class can hold other values. */
  datatype ChatType = Machine | Session | UnlistedChatType(raw: int)

  /** `ChatService::ChatState`. */
  datatype ChatState = Open | Closed | UnlistedChatState(raw: int)

  datatype ChatInfo = ChatInfo(chatId: string, title: string, chatType: ChatType, chatTypeId: nat, chatState: ChatState)

  /** `ChatService::ReceivedMessage`; the protobuf message carries the same
      five fields, copied one for one. */
  datatype ReceivedMessage = ReceivedMessage(chatId: string, messageId: string, content: string, timeStamp: nat, sender: string)

  /** The protobuf `tvchatservice::ChatType` and `ChatState`: open enums too. */
  datatype WireChatType = WireMachine | WireSession | WireUnlistedChatType(raw: int)
  datatype WireChatState = WireOpen | WireClosed | WireUnlistedChatState(raw: int)

  datatype WireChatInfo = WireChatInfo(chatId: string, title: string, chatType: WireChatType, chatTypeId: nat, chatState: WireChatState)

  /** The requests the two clients send. */
  datatype Request =
    | ChatCreatedRequest(chatId: string, title: string, wireType: WireChatType, chatTypeId: nat)
    | ChatsRemovedRequest(chatIds: seq<string>)
    | ReceivedMessagesRequest(received: seq<ReceivedMessage>)
    | MessageSentRequest(localId: nat, messageId: string, sentAt: nat)
    | MessageNotSentRequest(notSentId: nat)
    | LoadedMessagesRequest(messages: seq<ReceivedMessage>, hasMore: bool)
    | DeletedHistoryRequest(historyChatId: string)
    | ClosedChatRequest(closedChatId: string)
    | ObtainChatsRequest
    | SelectChatRequest(selectedChatId: string)
    | SendMessageRequest(sendLocalId: nat, content: string)
    | LoadMessagesRequest(count: nat, lastId: string)
    | DeleteHistoryRequest
    | DeleteChatRequest

  // ---------------------------------------------------------------------
  // ChatOutServiceClient

  /** A message the SDK may be told about: it has an id, some content and a
      non-zero time stamp. */
  predicate Complete(m: ReceivedMessage) {
    m.messageId != [] && m.content != [] && m.timeStamp != 0
  }

  predicate AllComplete(ms: seq<ReceivedMessage>) {
    forall i :: 0 <= i < |ms| ==> Complete(ms[i])
  }

  /** `ChatCreated`: a chat type outside the two listed ones is refused
      before the client is even looked at; then the call needs a
      communication id and a chat id. */
  function ChatCreated(c: Client, comId: string, chatId: string, title: string, chatType: ChatType, chatTypeId: nat, answer: Status): (r: Sent<Request>)
    ensures chatType.UnlistedChatType? ==> r == Sent(FailWith(InvalidInputParameter), None)
    ensures r.request.Some? <==> !chatType.UnlistedChatType? && c.connected && comId != [] && chatId != []
    ensures r.request.Some? ==> (
      && r.request.value.ChatCreatedRequest? && r.request.value.chatId == chatId
      && r.request.value.title == title && r.request.value.chatTypeId == chatTypeId
      && (chatType == Machine <==> r.request.value.wireType == WireMachine)
      && (chatType == Session <==> r.request.value.wireType == WireSession))
  {
    match chatType
    case UnlistedChatType(_) => Sent(FailWith(InvalidInputParameter), None)
    case _ =>
      var wire := if chatType == Machine then WireMachine else WireSession;
      DefaultCall(c, DefaultValid(comId) && chatId != [], ChatCreatedRequest(chatId, title, wire, chatTypeId), answer)
  }

  /** Unlike every other call, `ChatCreated` reports a bad chat type even on a
      client that was never started. */
  lemma ChatTypeCheckedFirst(comId: string, chatId: string, title: string, raw: int, chatTypeId: nat, answer: Status)
    ensures ChatCreated(NewClient, comId, chatId, title, UnlistedChatType(raw), chatTypeId, answer).status.errorMessage == InvalidInputParameter
    ensures ChatCreated(NewClient, comId, chatId, title, Machine, chatTypeId, answer).status.errorMessage == MissingStartClient
  {
  }

  /** `ChatsRemoved`: every removed chat id must be non-empty; the ids go out
      in order. */
  function ChatsRemoved(c: Client, comId: string, chatIds: seq<string>, answer: Status): (r: Sent<Request>)
    ensures r.request.Some? <==> c.connected && comId != [] && forall i :: 0 <= i < |chatIds| ==> chatIds[i] != []
    ensures r.request.Some? ==> r.request.value == ChatsRemovedRequest(chatIds)
  {
    DefaultCall(c, DefaultValid(comId) && forall i :: 0 <= i < |chatIds| ==> chatIds[i] != [], ChatsRemovedRequest(chatIds), answer)
  }

  /** `ReceivedMessages`: every message must be complete; the client is
      checked first. */
  function ReceivedMessages(c: Client, comId: string, messages: seq<ReceivedMessage>, answer: Status): (r: Sent<Request>)
    ensures r.request.Some? <==> c.connected && comId != [] && AllComplete(messages)
    ensures r.request.Some? ==> r.request.value == ReceivedMessagesRequest(messages)
    ensures !c.connected ==> r.status == FailWith(MissingStartClient)
  {
    DefaultCall(c, DefaultValid(comId) && AllComplete(messages), ReceivedMessagesRequest(messages), answer)
  }

  /** `MessageSent`, `MessageNotSent`, `DeletedHistory`, `ClosedChat`: only
      the communication id is checked. */
  function MessageSent(c: Client, comId: string, localId: nat, messageId: string, timeStamp: nat, answer: Status): (r: Sent<Request>)
    ensures r.request.Some? <==> c.connected && comId != []
    ensures r.request.Some? ==> r.request.value == MessageSentRequest(localId, messageId, timeStamp)
  {
    DefaultCall(c, DefaultValid(comId), MessageSentRequest(localId, messageId, timeStamp), answer)
  }

  function MessageNotSent(c: Client, comId: string, localId: nat, answer: Status): (r: Sent<Request>)
    ensures r.request.Some? <==> c.connected && comId != []
    ensures r.request.Some? ==> r.request.value == MessageNotSentRequest(localId)
  {
    DefaultCall(c, DefaultValid(comId), MessageNotSentRequest(localId), answer)
  }

  function DeletedHistory(c: Client, comId: string, chatId: string, answer: Status): (r: Sent<Request>)
    ensures r.request.Some? <==> c.connected && comId != []
    ensures r.request.Some? ==> r.request.value == DeletedHistoryRequest(chatId)
  {
    DefaultCall(c, DefaultValid(comId), DeletedHistoryRequest(chatId), answer)
  }

  function ClosedChat(c: Client, comId: string, chatId: string, answer: Status): (r: Sent<Request>)
    ensures r.request.Some? <==> c.connected && comId != []
    ensures r.request.Some? ==> r.request.value == ClosedChatRequest(chatId)
  {
    DefaultCall(c, DefaultValid(comId), ClosedChatRequest(chatId), answer)
  }

  /** `LoadedMessages`: checks the messages before anything else, then only
      the communication id; the messages go out in order with `hasMore`. */
  function LoadedMessages(c: Client, comId: string, messages: seq<ReceivedMessage>, hasMore: bool, answer: Status): (r: Sent<Request>)
    ensures !AllComplete(messages) ==> r == Sent(FailWith(InvalidInputParameter), None)
    ensures r.request.Some? <==> c.connected && comId != [] && AllComplete(messages)
    ensures r.request.Some? ==> r.request.value == LoadedMessagesRequest(messages, hasMore)
  {
    if !AllComplete(messages) then Sent(FailWith(InvalidInputParameter), None)
    else DefaultCall(c, DefaultValid(comId), LoadedMessagesRequest(messages, hasMore), answer)
  }

  /** Both message-carrying calls accept the same inputs; they differ only in
      which error an unstarted client with an incomplete message reports. */
  lemma MessageCallsAgree(c: Client, comId: string, messages: seq<ReceivedMessage>, hasMore: bool, answer: Status)
    ensures ReceivedMessages(c, comId, messages, answer).request.Some? <==> LoadedMessages(c, comId, messages, hasMore, answer).request.Some?
    ensures ReceivedMessages(c, comId, messages, answer).status == LoadedMessages(c, comId, messages, hasMore, answer).status
        <==> c.connected || AllComplete(messages)
  {
  }

  // ---------------------------------------------------------------------
  // ChatInServiceClient

  /** `SelectChat`, `SendMessage`, `DeleteHistory`, `DeleteChat`: only the
      communication id is checked. */
  function SelectChat(c: Client, comId: string, chatId: string, answer: Status): (r: Sent<Request>)
    ensures r.request.Some? <==> c.connected && comId != []
    ensures r.request.Some? ==> r.request.value == SelectChatRequest(chatId)
  {
    DefaultCall(c, DefaultValid(comId), SelectChatRequest(chatId), answer)
  }

  function SendMessage(c: Client, comId: string, localId: nat, content: string, answer: Status): (r: Sent<Request>)
    ensures r.request.Some? <==> c.connected && comId != []
    ensures r.request.Some? ==> r.request.value == SendMessageRequest(localId, content)
  {
    DefaultCall(c, DefaultValid(comId), SendMessageRequest(localId, content), answer)
  }

  function DeleteHistory(c: Client, comId: string, answer: Status): (r: Sent<Request>)
    ensures r.request.Some? <==> c.connected && comId != []
  {
    DefaultCall(c, DefaultValid(comId), DeleteHistoryRequest, answer)
  }

  function DeleteChat(c: Client, comId: string, answer: Status): (r: Sent<Request>)
    ensures r.request.Some? <==> c.connected && comId != []
  {
    DefaultCall(c, DefaultValid(comId), DeleteChatRequest, answer)
  }

  /** `LoadMessages`: asking for no messages at all is invalid input. */
  function LoadMessages(c: Client, comId: string, count: nat, lastId: string, answer: Status): (r: Sent<Request>)
    ensures r.request.Some? <==> c.connected && comId != [] && count != 0
    ensures r.request.Some? ==> r.request.value == LoadMessagesRequest(count, lastId)
    ensures c.connected && count == 0 ==> r.status == FailWith(InvalidInputParameter)
  {
    DefaultCall(c, DefaultValid(comId) && count != 0, LoadMessagesRequest(count, lastId), answer)
  }

  // ObtainChats

  function TypeFromWire(t: WireChatType): (r: Option<ChatType>)
    ensures r.None? <==> t.WireUnlistedChatType?
    ensures r == Some(Machine) <==> t == WireMachine
    ensures r == Some(Session) <==> t == WireSession
  {
    match t
    case WireMachine => Some(Machine)
    case WireSession => Some(Session)
    case WireUnlistedChatType(_) => None
  }

  function StateFromWire(s: WireChatState): (r: Option<ChatState>)
    ensures r.None? <==> s.WireUnlistedChatState?
    ensures r == Some(Open) <==> s == WireOpen
    ensures r == Some(Closed) <==> s == WireClosed
  {
    match s
    case WireOpen => Some(Open)
    case WireClosed => Some(Closed)
    case WireUnlistedChatState(_) => None
  }

  /** One response entry decoded, or None when its type or state is not one
      the client knows. */
  function DecodeChat(w: WireChatInfo): (r: Option<ChatInfo>)
    ensures r.Some? <==> !w.chatType.WireUnlistedChatType? && !w.chatState.WireUnlistedChatState?
    ensures r.Some? ==> (
      && r.value.chatId == w.chatId && r.value.title == w.title && r.value.chatTypeId == w.chatTypeId
      && Some(r.value.chatType) == TypeFromWire(w.chatType) && Some(r.value.chatState) == StateFromWire(w.chatState))
  {
    match (TypeFromWire(w.chatType), StateFromWire(w.chatState))
    case (Some(t), Some(s)) => Some(ChatInfo(w.chatId, w.title, t, w.chatTypeId, s))
    case _ => None
  }

  predicate Decodable(ws: seq<WireChatInfo>) {
    forall i :: 0 <= i < |ws| ==> DecodeChat(ws[i]).Some?
  }

  /** The response's entries decoded in order; None as soon as one is not
      decodable. */
  function DecodeChats(ws: seq<WireChatInfo>): (r: Option<seq<ChatInfo>>)
    ensures r.Some? <==> Decodable(ws)
    ensures r.Some? ==> |r.value| == |ws| && forall i :: 0 <= i < |ws| ==> Some(r.value[i]) == DecodeChat(ws[i])
  {
    if ws == [] then Some([])
    else match (DecodeChat(ws[0]), DecodeChats(ws[1..]))
      case (Some(x), Some(rest)) =>
        assert forall i :: 1 <= i < |ws| ==> ws[i] == ws[1..][i - 1];
        Some([x] + rest)
      case (None, _) => None
      case (_, None) =>
        assert forall i :: 0 <= i < |ws[1..]| ==> ws[1..][i] == ws[i + 1];
        None
  }

  /** `ObtainChatsResponse`. */
  datatype ObtainChatsResponse = ObtainChatsResponse(state: CallState, errorMessage: ErrorMessage, chats: seq<ChatInfo>)
  {
    predicate IsOk() { state == Ok }
  }

  /** `ObtainChats`' `HandleResponse` as written: the state is set to `Ok`
      before the entries are decoded, so an undecodable entry leaves an `Ok`
      response with an error message and no chats. */
  function HandleObtainChatsAsWritten(answer: Status, ws: seq<WireChatInfo>): (r: ObtainChatsResponse)
    ensures r.IsOk() <==> answer.ok()
    ensures answer.ok() && !Decodable(ws) ==> r.chats == [] && r.errorMessage == InvalidResponseValue
  {
    if !answer.ok() then ObtainChatsResponse(Failed, answer.message, [])
    else match DecodeChats(ws)
      case Some(cs) => ObtainChatsResponse(Ok, NoMessage, cs)
      case None => ObtainChatsResponse(Ok, InvalidResponseValue, [])
  }

  /** `ObtainChats`' `HandleResponse` as intended: an undecodable entry makes
      the call fail. */
  function HandleObtainChats(answer: Status, ws: seq<WireChatInfo>): (r: ObtainChatsResponse)
    ensures r.IsOk() <==> answer.ok() && Decodable(ws)
    ensures r.IsOk() ==> |r.chats| == |ws| && forall i :: 0 <= i < |ws| ==> Some(r.chats[i]) == DecodeChat(ws[i])
    ensures !r.IsOk() ==> r.chats == [] && r.errorMessage == (if answer.ok() then InvalidResponseValue else answer.message)
  {
    if !answer.ok() then ObtainChatsResponse(Failed, answer.message, [])
    else match DecodeChats(ws)
      case Some(cs) => ObtainChatsResponse(Ok, NoMessage, cs)
      case None => ObtainChatsResponse(Failed, InvalidResponseValue, [])
  }

  /** `ObtainChats`: the common pipeline with either handler; an early
      failure carries no chats. */
  function ObtainChatsWith(c: Client, comId: string, answer: Status, ws: seq<WireChatInfo>, intended: bool): (r: (ObtainChatsResponse, Option<Request>))
    ensures r.1.Some? <==> c.connected && comId != []
    ensures r.1.None? ==> !r.0.IsOk() && r.0.chats == []
  {
    ClientCall(c, DefaultValid(comId), ObtainChatsRequest, answer,
      (s: Status) => if intended then HandleObtainChats(s, ws) else HandleObtainChatsAsWritten(s, ws),
      (m: ErrorMessage) => ObtainChatsResponse(Failed, m, []))
  }

  function ObtainChatsAsWritten(c: Client, comId: string, answer: Status, ws: seq<WireChatInfo>): (r: ObtainChatsResponse)
    ensures r.IsOk() <==> c.connected && comId != [] && answer.ok()
  {
    ObtainChatsWith(c, comId, answer, ws, false).0
  }

  function ObtainChats(c: Client, comId: string, answer: Status, ws: seq<WireChatInfo>): (r: ObtainChatsResponse)
    ensures r.IsOk() <==> c.connected && comId != [] && answer.ok() && Decodable(ws)
    ensures r.IsOk() ==> |r.chats| == |ws| && forall i :: 0 <= i < |ws| ==> Some(r.chats[i]) == DecodeChat(ws[i])
  {
    ObtainChatsWith(c, comId, answer, ws, true).0
  }

  /** An entry the client cannot decode: the as-written response still
      reports success — with no chats — while the intended one fails. */
  lemma UndecodableReportedOk(c: Client, comId: string, raw: int)
    requires c.connected && comId != []
    ensures var ws := [WireChatInfo("a", "t", WireUnlistedChatType(raw), 0, WireOpen)];
      ObtainChatsAsWritten(c, comId, StatusOk, ws) == ObtainChatsResponse(Ok, InvalidResponseValue, [])
      && !ObtainChats(c, comId, StatusOk, ws).IsOk()
  {
    var ws := [WireChatInfo("a", "t", WireUnlistedChatType(raw), 0, WireOpen)];
    assert !Decodable(ws) by { assert DecodeChat(ws[0]).None?; }
  }

  /** Both handlers agree whenever every entry decodes. */
  lemma {:induction false} HandlersAgreeOnDecodable(c: Client, comId: string, answer: Status, ws: seq<WireChatInfo>)
    requires Decodable(ws)
    ensures ObtainChatsAsWritten(c, comId, answer, ws) == ObtainChats(c, comId, answer, ws)
  {
  }

  /** Decoding a concatenated response is decoding its parts. */
  lemma {:induction false} DecodeChatsAppend(a: seq<WireChatInfo>, b: seq<WireChatInfo>)
    ensures DecodeChats(a + b).Some? <==> DecodeChats(a).Some? && DecodeChats(b).Some?
    ensures DecodeChats(a + b).Some? ==> DecodeChats(a + b).value == DecodeChats(a).value + DecodeChats(b).value
  {
    DecodableAppend(a, b);
    if Decodable(a + b) {
      var x := DecodeChats(a + b).value;
      var y := DecodeChats(a).value + DecodeChats(b).value;
      assert |x| == |y|;
      forall i | 0 <= i < |x| ensures x[i] == y[i] {
        if i < |a| {
          assert (a + b)[i] == a[i];
          assert Some(x[i]) == DecodeChat(a[i]);
        } else {
          assert (a + b)[i] == b[i - |a|];
          assert Some(x[i]) == DecodeChat(b[i - |a|]);
        }
      }
    }
  }

  lemma DecodableAppend(a: seq<WireChatInfo>, b: seq<WireChatInfo>)
    ensures Decodable(a + b) <==> Decodable(a) && Decodable(b)
  {
    assert forall i :: 0 <= i < |a| ==> (a + b)[i] == a[i];
    assert forall i :: 0 <= i < |b| ==> (a + b)[|a| + i] == b[i];
    if !Decodable(a + b) {
      var i :| 0 <= i < |a + b| && DecodeChat((a + b)[i]).None?;
      if i < |a| {
        assert DecodeChat(a[i]).None?;
      } else {
        assert DecodeChat(b[i - |a|]).None?;
      }
    }
  }
}
