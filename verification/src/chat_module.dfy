/** The chat module of the agent API: request-ID allocation for outgoing
    messages, the "select the chat, then act" call chain, chat enumeration,
    and the mapping of channel signals to the host's callbacks.

    The module holds only its request counter. Whether the agent connection
    is still alive (the weak pointer's `lock`) and what each channel call
    returns are parameters; every operation also returns the channel calls
    it made, in order. */
module ChatModule {
  import opened Wrappers
  import Enumerate

  const Modulus: nat := 0x1_0000_0000

  /** A `uint32_t`. */
  type Uint32 = x: int | 0 <= x < 0x1_0000_0000

  /** `RequestID` is a `uint32_t`. */
  type RequestId = Uint32

  /** The reserved ID meaning "not sent". */
  const InvalidRequestId: RequestId := 0

  /** The number of usable request IDs, 1 through 2^32 - 1. */
  const IdCount: nat := 0xFFFF_FFFF

  /** The communication layer's chat type and state. They are closed: both
      services that produce them refuse unlisted wire values first, so the
      fallbacks after `assert(false)` in `toAPIType` are never reached. */
  datatype ChannelChatType = ChannelMachine | ChannelSession
  datatype ChannelChatState = ChannelOpen | ChannelClosed

  /** The agent API's chat endpoint type and state. */
  datatype EndpointType = Machine | InstantSupportSession
  datatype ChatState = Open | Closed

  datatype SendResult = Succeeded | Failed

  /** A chat as the channel reports it. */
  datatype ChannelChat = ChannelChat(
    chatId: string, title: string, chatType: ChannelChatType, chatTypeId: nat, chatState: ChannelChatState)

  /** A chat as the host's enumerator sees it. */
  datatype Chat = Chat(chatId: string, title: string, endpointType: EndpointType, chatTypeId: nat, state: ChatState)

  /** The calls the module makes on the communication channel. */
  datatype ChannelCall =
    | SelectChat(chatId: string)
    | SendMessage(requestId: RequestId, content: string)
    | LoadMessages(count: Uint32, before: string)
    | DeleteHistory
    | DeleteChat

  datatype Module = Module(nextRequestId: RequestId)

  const NewModule := Module(0)

  function ToApiEndpoint(t: ChannelChatType): (r: EndpointType)
    ensures t == ChannelMachine <==> r == Machine
  {
    match t
    case ChannelMachine => Machine
    case ChannelSession => InstantSupportSession
  }

  function ToApiState(s: ChannelChatState): (r: ChatState)
    ensures s == ChannelOpen <==> r == Open
  {
    match s
    case ChannelOpen => Open
    case ChannelClosed => Closed
  }

  function ToApiChat(c: ChannelChat): (r: Chat)
    ensures r.chatId == c.chatId && r.title == c.title && r.chatTypeId == c.chatTypeId
  {
    Chat(c.chatId, c.title, ToApiEndpoint(c.chatType), c.chatTypeId, ToApiState(c.chatState))
  }

  /** Both enum conversions lose nothing: distinct inputs give distinct outputs. */
  lemma ConversionsInjective(a: ChannelChat, b: ChannelChat)
    ensures ToApiChat(a) == ToApiChat(b) ==> a == b
  {
  }

  /** The ID the next send uses: the counter, with 0 skipped. */
  function Allocated(next: RequestId): (id: RequestId)
    ensures id != InvalidRequestId
    ensures next != InvalidRequestId ==> id == next
  {
    if next == InvalidRequestId then 1 else next
  }

  /** The counter after a successful send with `id`: `uint32_t` increment. */
  function Advance(id: RequestId): (next: RequestId)
    ensures id < IdCount ==> next == id + 1
    ensures id == IdCount ==> next == 0
  {
    (id + 1) % Modulus
  }

  /** `sendMessage`: null arguments, an expired connection or a failed chat
      selection give the invalid ID with the counter untouched; otherwise the
      counter skips 0 and is used as the request ID, and only a successful
      send advances it. */
  function Send(m: Module, chatId: Option<string>, content: Option<string>, alive: bool, selectOk: bool, sendOk: bool)
    : (r: (Module, RequestId, seq<ChannelCall>))
    ensures r.1 != InvalidRequestId <==> chatId.Some? && content.Some? && alive && selectOk && sendOk
    ensures r.1 != InvalidRequestId ==> r.1 == Allocated(m.nextRequestId)
    ensures r.1 != InvalidRequestId ==> Allocated(r.0.nextRequestId) == r.1 % IdCount + 1
    ensures r.1 == InvalidRequestId ==> Allocated(r.0.nextRequestId) == Allocated(m.nextRequestId)
    ensures !(chatId.Some? && content.Some? && alive && selectOk) ==> r.0 == m
    ensures (exists i :: 0 <= i < |r.2| && r.2[i].SendMessage?) <==> chatId.Some? && content.Some? && alive && selectOk
    ensures chatId.Some? && content.Some? && alive && selectOk ==>
      r.2 == [SelectChat(chatId.value), SendMessage(Allocated(m.nextRequestId), content.value)]
    ensures chatId.Some? && content.Some? && alive && !selectOk ==> r.2 == [SelectChat(chatId.value)]
    ensures r.1 != InvalidRequestId ==> r.2[1] == SendMessage(r.1, content.value)
  {
    if chatId.None? || content.None? || !alive then (m, InvalidRequestId, [])
    else if !selectOk then (m, InvalidRequestId, [SelectChat(chatId.value)])
    else
      var id := Allocated(m.nextRequestId);
      var calls := [SelectChat(chatId.value), SendMessage(id, content.value)];
      assert calls[1].SendMessage?;
      if sendOk then (Module(Advance(id)), id, calls)
      else (Module(id), InvalidRequestId, calls)
  }

  /** The guard chain `loadMessages`, `deleteHistory` and `deleteChat` share:
      a null chat ID or an expired connection fails with no call; otherwise
      the chat is selected, and the action is sent only if that succeeded.
      The result is the action's result. */
  function SelectThen(chatId: Option<string>, alive: bool, selectOk: bool, action: ChannelCall, actionOk: bool)
    : (r: (bool, seq<ChannelCall>))
    requires !action.SelectChat?
    ensures r.0 <==> chatId.Some? && alive && selectOk && actionOk
    ensures action in r.1 <==> chatId.Some? && alive && selectOk
    ensures chatId.None? || !alive ==> r.1 == []
  {
    if chatId.None? || !alive then (false, [])
    else if !selectOk then (false, [SelectChat(chatId.value)])
    else (actionOk, [SelectChat(chatId.value), action])
  }

  /** `loadMessages`: the count is cast to `uint32_t` and a null "before" ID
      is sent as the empty string. */
  function Load(chatId: Option<string>, count: nat, before: Option<string>, alive: bool, selectOk: bool, loadOk: bool)
    : (r: (bool, seq<ChannelCall>))
    ensures r.0 <==> chatId.Some? && alive && selectOk && loadOk
    ensures chatId.Some? && alive && selectOk ==>
      r.1 == [SelectChat(chatId.value), LoadMessages(count % Modulus, before.GetOr(""))]
  {
    SelectThen(chatId, alive, selectOk, LoadMessages(count % Modulus, before.GetOr("")), loadOk)
  }

  function RemoveHistory(chatId: Option<string>, alive: bool, selectOk: bool, deleteOk: bool)
    : (r: (bool, seq<ChannelCall>))
    ensures r.0 <==> chatId.Some? && alive && selectOk && deleteOk
    ensures DeleteHistory in r.1 <==> chatId.Some? && alive && selectOk
  {
    SelectThen(chatId, alive, selectOk, DeleteHistory, deleteOk)
  }

  function RemoveChat(chatId: Option<string>, alive: bool, selectOk: bool, deleteOk: bool)
    : (r: (bool, seq<ChannelCall>))
    ensures r.0 <==> chatId.Some? && alive && selectOk && deleteOk
    ensures DeleteChat in r.1 <==> chatId.Some? && alive && selectOk
  {
    SelectThen(chatId, alive, selectOk, DeleteChat, deleteOk)
  }

  /** A call list that selects `chatId` first and then makes at most one
      call, which is not a selection. */
  predicate SelectsFirst(calls: seq<ChannelCall>, chatId: string) {
    |calls| <= 2
    && (0 < |calls| ==> calls[0] == SelectChat(chatId))
    && (|calls| == 2 ==> !calls[1].SelectChat?)
  }

  /** Every chat operation that names a chat selects it before acting on it. */
  lemma ActionsSelectFirst(m: Module, chatId: string, content: Option<string>, count: nat, before: Option<string>,
                           alive: bool, selectOk: bool, actionOk: bool)
    ensures SelectsFirst(Send(m, Some(chatId), content, alive, selectOk, actionOk).2, chatId)
    ensures SelectsFirst(Load(Some(chatId), count, before, alive, selectOk, actionOk).1, chatId)
    ensures SelectsFirst(RemoveHistory(Some(chatId), alive, selectOk, actionOk).1, chatId)
    ensures SelectsFirst(RemoveChat(Some(chatId), alive, selectOk, actionOk).1, chatId)
  {
  }

  /** `obtainChats`: with no enumerator, an expired connection or a failed
      fetch the result is false and the enumerator sees nothing; otherwise
      the converted chats are visited in order until the enumerator declines
      one, and the result is true. */
  function ObtainChatList(hasEnumerator: bool, alive: bool, fetched: Option<seq<ChannelChat>>, accept: Chat -> bool)
    : (r: (bool, seq<Chat>))
    ensures r.0 <==> hasEnumerator && alive && fetched.Some?
    ensures !r.0 ==> r.1 == []
    ensures r.0 ==>
      (|r.1| <= |fetched.value| && forall i :: 0 <= i < |r.1| ==> r.1[i] == ToApiChat(fetched.value[i]))
    ensures forall i :: 0 <= i < |r.1| - 1 ==> accept(r.1[i])
    ensures r.0 && |r.1| < |fetched.value| ==> 0 < |r.1| && !accept(r.1[|r.1| - 1])
  {
    if !hasEnumerator || !alive || fetched.None? then (false, [])
    else
      var all := seq(|fetched.value|, i requires 0 <= i < |fetched.value| => ToApiChat(fetched.value[i]));
      (true, Enumerate.VisitUntil(all, accept))
  }

  /** What the channel signals about a sent message. */
  datatype SendSignal =
    | MessageSent(localId: RequestId, messageId: string, timeStamp: nat)
    | MessageNotSent(localId: RequestId)

  /** The host's `sendMessageFinished` arguments. */
  datatype SendFinished = SendFinished(requestId: RequestId, result: SendResult, messageId: string, timeStamp: nat)

  function ToSendFinished(s: SendSignal): (f: SendFinished)
    ensures f.requestId == s.localId
    ensures f.result == Succeeded <==> s.MessageSent?
    ensures s.MessageSent? ==> f.messageId == s.messageId && f.timeStamp == s.timeStamp
    ensures s.MessageNotSent? ==> f.messageId == "" && f.timeStamp == 0
  {
    match s
    case MessageSent(id, msg, ts) => SendFinished(id, Succeeded, msg, ts)
    case MessageNotSent(id) => SendFinished(id, Failed, "", 0)
  }

  /** One attempt to send, with the environment's answers. */
  datatype SendAttempt = SendAttempt(
    chatId: Option<string>, content: Option<string>, alive: bool, selectOk: bool, sendOk: bool)

  /** A sequence of `sendMessage` calls: the final module and the IDs of the
      sends that succeeded, in order. */
  function SendAll(m: Module, attempts: seq<SendAttempt>): (Module, seq<RequestId>)
    decreases |attempts|
  {
    if attempts == [] then (m, [])
    else
      var a := attempts[0];
      var (m1, id, _) := Send(m, a.chatId, a.content, a.alive, a.selectOk, a.sendOk);
      var (m2, ids) := SendAll(m1, attempts[1..]);
      (m2, if id == InvalidRequestId then ids else [id] + ids)
  }

  /** `ids` are consecutive IDs of the cycle 1, 2, ..., 2^32 - 1, 1, ...,
      starting at `b + 1`. */
  predicate CycleFrom(ids: seq<RequestId>, b: nat) {
    forall k :: 0 <= k < |ids| ==> ids[k] == (b + k) % IdCount + 1
  }

  /** The k-th successful send, counting from 0, gets the ID k places after
      the current one in the cycle 1, 2, ..., 2^32 - 1, 1, ...; failed
      attempts consume nothing. */
  lemma {:induction false} SendAllIds(m: Module, attempts: seq<SendAttempt>)
    ensures CycleFrom(SendAll(m, attempts).1, Allocated(m.nextRequestId) - 1)
    decreases |attempts|
  {
    if attempts != [] {
      var a := attempts[0];
      var (m1, id, _) := Send(m, a.chatId, a.content, a.alive, a.selectOk, a.sendOk);
      SendAllIds(m1, attempts[1..]);
      var rest := SendAll(m1, attempts[1..]).1;
      var b := Allocated(m.nextRequestId) - 1;
      var c := Allocated(m1.nextRequestId) - 1;
      if id != InvalidRequestId {
        assert c == (b + 1) % IdCount;
        var ids := [id] + rest;
        assert SendAll(m, attempts).1 == ids;
        forall k | 0 <= k < |ids|
          ensures ids[k] == (b + k) % IdCount + 1
        {
          if k > 0 {
            assert ids[k] == rest[k - 1] == (c + (k - 1)) % IdCount + 1;
            ModShift(b + 1, k - 1);
          }
        }
      } else {
        assert c == b;
        assert SendAll(m, attempts).1 == rest;
      }
    }
  }

  lemma ModShift(x: nat, k: nat)
    ensures (x % IdCount + k) % IdCount == (x + k) % IdCount
  {
  }

  /** Fewer than 2^32 successful sends never reuse a request ID, and none
      of them is the invalid ID. */
  lemma SendAllDistinct(m: Module, attempts: seq<SendAttempt>)
    requires |attempts| <= IdCount
    ensures var ids := SendAll(m, attempts).1;
      (forall i, j :: 0 <= i < j < |ids| ==> ids[i] != ids[j])
      && (forall i :: 0 <= i < |ids| ==> ids[i] != InvalidRequestId)
  {
    SendAllIds(m, attempts);
    SendAllLength(m, attempts);
    var ids := SendAll(m, attempts).1;
    var b := Allocated(m.nextRequestId) - 1;
    forall i, j | 0 <= i < j < |ids| ensures ids[i] != ids[j] {
      ModDistinct(b, i, j);
    }
  }

  lemma {:induction false} SendAllLength(m: Module, attempts: seq<SendAttempt>)
    ensures |SendAll(m, attempts).1| <= |attempts|
    decreases |attempts|
  {
    if attempts != [] {
      var a := attempts[0];
      var (m1, id, _) := Send(m, a.chatId, a.content, a.alive, a.selectOk, a.sendOk);
      SendAllLength(m1, attempts[1..]);
    }
  }

  /** Two positions less than a full cycle apart land on different residues. */
  lemma ModDistinct(b: nat, i: nat, j: nat)
    requires i < j < IdCount
    ensures (b + i) % IdCount != (b + j) % IdCount
  {
  }
}
