/** The C++ chat example: its command parser, and how its list of chat rooms
    (the first one is the selected room) follows the chat module's
    notifications and the user's commands.

    Printing, the event loop and the chat-module calls themselves are not
    modelled; a call's result, such as the request ID `sendMessage`
    returned, is a parameter. */
module ChatExample {
  import opened Wrappers
  import Decimal
  import Enumerate
  import Msg = ChatMessages
  import Api = ChatModule
  import Conn = AgentConnection

  /** `ChatCommandType`: the first eight are typed by the user, in the
      order of `CommandStrings`. */
  datatype CommandType =
    | Help | Exit | PrintChats | PrintMessages | LoadMessages | SelectChat | DeleteChat | DeleteHistory
    | LoadChats | SendMessage | Unknown

  const CommandStrings: seq<string> :=
    ["/help", "/exit", "/chats", "/messages", "/loadMessages", "/selectChat", "/deleteChat", "/deleteHistory"]

  function KindAt(i: nat): (t: CommandType)
    requires i < |CommandStrings|
    ensures t != LoadChats && t != SendMessage && t != Unknown
  {
    [Help, Exit, PrintChats, PrintMessages, LoadMessages, SelectChat, DeleteChat, DeleteHistory][i]
  }

  lemma KindAtInjective(i: nat, j: nat)
    requires i < |CommandStrings| && j < |CommandStrings|
    ensures KindAt(i) == KindAt(j) ==> i == j
  {
  }

  datatype Command = Command(kind: CommandType, payload: string)

  /** Input that names command `i`: the command string, alone or followed by a space. */
  predicate Invokes(input: string, i: nat)
    requires i < |CommandStrings|
  {
    var c := CommandStrings[i];
    |c| <= |input| && input[..|c|] == c && (|input| == |c| || input[|c|] == ' ')
  }

  /** What follows the command string and its space. */
  function Argument(input: string, i: nat): string
    requires i < |CommandStrings| && Invokes(input, i)
  {
    var n := |CommandStrings[i]|;
    if |input| > n then input[n + 1..] else ""
  }

  function ParseFrom(input: string, i: nat): Command
    requires i <= |CommandStrings|
    decreases |CommandStrings| - i
  {
    if i == |CommandStrings| then
      if input == [] || input[0] == '/' then Command(Unknown, "") else Command(SendMessage, input)
    else if Invokes(input, i) then Command(KindAt(i), Argument(input, i))
    else ParseFrom(input, i + 1)
  }

  /** `parseCommand`: the first command string the input invokes; otherwise
      Unknown for empty input or a leading '/', and a message to send for
      anything else. */
  function ParseCommand(input: string): (c: Command)
    ensures c.kind == SendMessage <==> input != [] && input[0] != '/'
    ensures c.kind == SendMessage ==> c.payload == input
    ensures c.kind == Unknown ==> c.payload == ""
    ensures c.kind != LoadChats
  {
    ParseFromSlash(input, 0);
    ParseFrom(input, 0)
  }

  lemma {:induction false} ParseFromSlash(input: string, i: nat)
    requires i <= |CommandStrings|
    ensures ParseFrom(input, i).kind == SendMessage <==> input != [] && input[0] != '/'
    ensures ParseFrom(input, i).kind == SendMessage ==> ParseFrom(input, i).payload == input
    ensures ParseFrom(input, i).kind == Unknown ==> ParseFrom(input, i).payload == ""
    ensures ParseFrom(input, i).kind != LoadChats
    decreases |CommandStrings| - i
  {
    if i < |CommandStrings| {
      if Invokes(input, i) {
        assert CommandStrings[i][0] == '/';
        assert input[0] == input[..|CommandStrings[i]|][0];
      } else {
        ParseFromSlash(input, i + 1);
      }
    }
  }

  /** No input invokes two commands: no command string followed by a space
      starts another one. */
  lemma InvokesUnique(input: string, i: nat, j: nat)
    requires i < j < |CommandStrings|
    ensures !(Invokes(input, i) && Invokes(input, j))
  {
  }

  lemma {:induction false} ParseFromInvoked(input: string, i: nat, k: nat)
    requires k <= i < |CommandStrings| && Invokes(input, i)
    ensures ParseFrom(input, k) == Command(KindAt(i), Argument(input, i))
    decreases i - k
  {
    if k < i {
      InvokesUnique(input, k, i);
      ParseFromInvoked(input, i, k + 1);
    }
  }

  lemma {:induction false} ParseFromNone(input: string, k: nat)
    requires k <= |CommandStrings|
    requires forall i :: k <= i < |CommandStrings| ==> !Invokes(input, i)
    ensures ParseFrom(input, k).kind !in {Help, Exit, PrintChats, PrintMessages, LoadMessages, SelectChat, DeleteChat, DeleteHistory}
    decreases |CommandStrings| - k
  {
    if k < |CommandStrings| {
      ParseFromNone(input, k + 1);
    }
  }

  /** The parser recognises command `i` exactly on input that invokes it,
      and then the payload is what follows the space. */
  lemma ParseCommandSpec(input: string, i: nat)
    requires i < |CommandStrings|
    ensures ParseCommand(input).kind == KindAt(i) <==> Invokes(input, i)
    ensures Invokes(input, i) ==> ParseCommand(input).payload == Argument(input, i)
  {
    if Invokes(input, i) {
      ParseFromInvoked(input, i, 0);
    } else if ParseCommand(input).kind == KindAt(i) {
      var j :| 0 <= j < |CommandStrings| && Invokes(input, j) by {
        if forall j :: 0 <= j < |CommandStrings| ==> !Invokes(input, j) {
          ParseFromNone(input, 0);
          assert false;
        }
      }
      ParseFromInvoked(input, j, 0);
      KindAtInjective(i, j);
      assert false;
    }
  }

  /** Typing a command string, optionally followed by a space and an
      argument, gives back that command and argument. */
  lemma ParseCommandRoundTrip(i: nat, argument: string)
    requires i < |CommandStrings|
    ensures ParseCommand(CommandStrings[i]) == Command(KindAt(i), "")
    ensures ParseCommand(CommandStrings[i] + " " + argument) == Command(KindAt(i), argument)
  {
    var c := CommandStrings[i];
    assert c[..|c|] == c;
    ParseCommandSpec(c, i);
    var input := c + " " + argument;
    assert input[..|c|] == c && input[|c|] == ' ';
    ParseCommandSpec(input, i);
    assert input[|c| + 1..] == argument;
  }

  /** A message as the example keeps it; `requestId` is non-zero while a
      placeholder waits for its send to finish. */
  type Message = Msg.Message<Api.RequestId>

  datatype Room = Room(
    chatId: string, title: string, endpointId: nat, endpointType: Api.EndpointType,
    state: Api.ChatState, messages: seq<Message>)

  /** `findChatRoomWithID`: the first room with that ID, or the length. */
  function FindRoom(rooms: seq<Room>, chatId: string): (i: nat)
    ensures i <= |rooms|
    ensures i < |rooms| ==> rooms[i].chatId == chatId
    ensures forall j :: 0 <= j < i ==> rooms[j].chatId != chatId
  {
    Enumerate.FirstWhere(rooms, (r: Room) => r.chatId == chatId)
  }

  /** `loadChatRooms`: the chats the module's enumeration visited become
      the room list, in order and without messages; the first one is
      selected. */
  function LoadRooms(visited: seq<Api.Chat>): (r: seq<Room>)
    ensures |r| == |visited|
    ensures forall j :: 0 <= j < |r| ==>
      r[j].chatId == visited[j].chatId && r[j].state == visited[j].state && r[j].messages == []
  {
    seq(|visited|, j requires 0 <= j < |visited| =>
      Room(visited[j].chatId, visited[j].title, visited[j].chatTypeId, visited[j].endpointType, visited[j].state, []))
  }

  /** The example's enumerator accepts every chat, so a successful request
      yields one room per fetched chat and a failed one no room; and an open
      chat loaded this way is the room a creation notification appends. */
  lemma LoadRoomsFromModule(alive: bool, fetched: Option<seq<Api.ChannelChat>>, c: Api.Chat)
    ensures var r := Api.ObtainChatList(true, alive, fetched, (x: Api.Chat) => true);
      |LoadRooms(r.1)| == (if alive && fetched.Some? then |fetched.value| else 0)
    ensures c.state == Api.Open ==>
      LoadRooms([c]) == ChatCreated([], c.chatId, c.title, c.endpointType, c.chatTypeId)
  {
    if alive && fetched.Some? {
      var all := seq(|fetched.value|, i requires 0 <= i < |fetched.value| => Api.ToApiChat(fetched.value[i]));
      Enumerate.VisitAll(all, (x: Api.Chat) => true);
    }
  }

  /** `handleChatCreated`: a new open room without messages is appended. */
  function ChatCreated(rooms: seq<Room>, chatId: string, title: string, endpointType: Api.EndpointType, endpointId: nat)
    : (r: seq<Room>)
    ensures |r| == |rooms| + 1 && r[..|rooms|] == rooms
    ensures r[|rooms|] == Room(chatId, title, endpointId, endpointType, Api.Open, [])
  {
    rooms + [Room(chatId, title, endpointId, endpointType, Api.Open, [])]
  }

  /** `handleChatsRemoved`: the rooms whose ID is listed are dropped, the
      others keep their order. */
  function ChatsRemoved(rooms: seq<Room>, chatIds: seq<string>): (r: seq<Room>)
    ensures |r| <= |rooms|
    ensures forall x :: x in r <==> x in rooms && x.chatId !in chatIds
    decreases |rooms|
  {
    if rooms == [] then []
    else (if rooms[0].chatId in chatIds then [] else [rooms[0]]) + ChatsRemoved(rooms[1..], chatIds)
  }

  /** Removing a set of IDs twice removes no more than removing it once, and
      two removals in a row remove the union of their IDs. */
  lemma {:induction false} ChatsRemovedCompose(rooms: seq<Room>, ids1: seq<string>, ids2: seq<string>)
    ensures ChatsRemoved(ChatsRemoved(rooms, ids1), ids2) == ChatsRemoved(rooms, ids1 + ids2)
    decreases |rooms|
  {
    if rooms != [] {
      ChatsRemovedCompose(rooms[1..], ids1, ids2);
      var x := rooms[0];
      var head := if x.chatId in ids1 then [] else [x];
      var tail := ChatsRemoved(rooms[1..], ids1);
      ChatsRemovedAppend(head, tail, ids2);
      if x.chatId !in ids1 {
        assert ChatsRemoved([x], ids2) == (if x.chatId in ids2 then [] else [x]) by {
          assert [x][1..] == [];
        }
      }
    }
  }

  lemma {:induction false} ChatsRemovedAppend(a: seq<Room>, b: seq<Room>, ids: seq<string>)
    ensures ChatsRemoved(a + b, ids) == ChatsRemoved(a, ids) + ChatsRemoved(b, ids)
    decreases |a|
  {
    if a != [] {
      assert (a + b)[1..] == a[1..] + b;
      ChatsRemovedAppend(a[1..], b, ids);
    } else {
      assert a + b == b;
    }
  }

  /** Applies `f` to the first room with ID `chatId`; without one, nothing changes. */
  function UpdateRoom(rooms: seq<Room>, chatId: string, f: Room -> Room): (r: seq<Room>)
    ensures |r| == |rooms|
    ensures FindRoom(rooms, chatId) == |rooms| ==> r == rooms
    ensures FindRoom(rooms, chatId) < |rooms| ==> r == rooms[FindRoom(rooms, chatId) := f(rooms[FindRoom(rooms, chatId)])]
  {
    var i := FindRoom(rooms, chatId);
    if i == |rooms| then rooms else rooms[i := f(rooms[i])]
  }

  /** `handleChatClosed`: the first room with that ID becomes closed. */
  function ChatClosed(rooms: seq<Room>, chatId: string): (r: seq<Room>)
    ensures |r| == |rooms|
    ensures forall j :: 0 <= j < |rooms| && j != FindRoom(rooms, chatId) ==> r[j] == rooms[j]
    ensures FindRoom(rooms, chatId) < |rooms| ==>
      r[FindRoom(rooms, chatId)] == rooms[FindRoom(rooms, chatId)].(state := Api.Closed)
  {
    UpdateRoom(rooms, chatId, (x: Room) => x.(state := Api.Closed))
  }

  /** `handleHistoryDeleted`: the first room with that ID loses its messages. */
  function HistoryDeleted(rooms: seq<Room>, chatId: string): (r: seq<Room>)
    ensures |r| == |rooms|
    ensures forall j :: 0 <= j < |rooms| && j != FindRoom(rooms, chatId) ==> r[j] == rooms[j]
    ensures FindRoom(rooms, chatId) < |rooms| ==>
      r[FindRoom(rooms, chatId)] == rooms[FindRoom(rooms, chatId)].(messages := [])
  {
    UpdateRoom(rooms, chatId, (x: Room) => x.(messages := []))
  }

  /** A message as the chat module reports it, new or loaded. */
  datatype ApiMessage = ApiMessage(chatId: string, messageId: string, content: string, sender: string, timeStamp: nat)

  /** One reported message merged into the first room with its chat ID; a
      message for an unknown room is dropped. */
  function Receive(rooms: seq<Room>, m: ApiMessage): (r: seq<Room>)
    ensures |r| == |rooms|
    ensures forall j :: 0 <= j < |rooms| && j != FindRoom(rooms, m.chatId) ==> r[j] == rooms[j]
    ensures FindRoom(rooms, m.chatId) < |rooms| ==>
      var i := FindRoom(rooms, m.chatId);
      r[i].chatId == rooms[i].chatId && r[i].state == rooms[i].state
      && r[i].messages == Msg.AddMessage(rooms[i].messages, Msg.Message(m.messageId, m.content, m.sender, m.timeStamp, 0, false))
  {
    var x := Msg.Message(m.messageId, m.content, m.sender, m.timeStamp, Api.InvalidRequestId, false);
    UpdateRoom(rooms, m.chatId, (room: Room) => room.(messages := Msg.AddMessage(room.messages, x)))
  }

  /** `handleNewMessages` and `handleMessagesLoaded`: the messages are
      merged in order. Receiving never changes which rooms exist, in which
      order, or their state, and a sorted room stays sorted. */
  function ReceiveAll(rooms: seq<Room>, ms: seq<ApiMessage>): (r: seq<Room>)
    ensures |r| == |rooms|
    ensures forall j :: 0 <= j < |rooms| ==> r[j].chatId == rooms[j].chatId && r[j].state == rooms[j].state
    ensures forall j :: 0 <= j < |rooms| && Msg.Sorted(rooms[j].messages) ==> Msg.Sorted(r[j].messages)
    decreases |ms|
  {
    if ms == [] then rooms else ReceiveAll(Receive(rooms, ms[0]), ms[1..])
  }

  /** The first room holding a placeholder for `req`, or the length. */
  function PendingRoom(rooms: seq<Room>, req: Api.RequestId): (i: nat)
    ensures i <= |rooms|
    ensures i < |rooms| ==> Msg.PendingIndex(rooms[i].messages, req) < |rooms[i].messages|
    ensures forall j :: 0 <= j < i ==> Msg.PendingIndex(rooms[j].messages, req) == |rooms[j].messages|
  {
    Enumerate.FirstWhere(rooms, (r: Room) => Msg.PendingIndex(r.messages, req) < |r.messages|)
  }

  /** `handleMessageSendFinished`: the first placeholder for `req`, in room
      order, takes the delivered ID and time stamp, stops waiting and records
      a failure; its room is re-sorted and no other room changes. */
  function SendFinished(rooms: seq<Room>, req: Api.RequestId, result: Api.SendResult, messageId: string, timeStamp: nat)
    : (r: seq<Room>)
    ensures |r| == |rooms|
    ensures PendingRoom(rooms, req) == |rooms| ==> r == rooms
    ensures forall j :: 0 <= j < |rooms| && j != PendingRoom(rooms, req) ==> r[j] == rooms[j]
    ensures PendingRoom(rooms, req) < |rooms| ==>
      var i := PendingRoom(rooms, req);
      r[i] == rooms[i].(messages := Msg.PatchPending(rooms[i].messages, req, messageId, timeStamp, 0, result == Api.Failed))
  {
    var i := PendingRoom(rooms, req);
    if i == |rooms| then rooms
    else
      rooms[i := rooms[i].(messages :=
        Msg.PatchPending(rooms[i].messages, req, messageId, timeStamp, Api.InvalidRequestId, result == Api.Failed))]
  }

  /** How many placeholders, over all rooms, wait for `req`. */
  function Waiting(rooms: seq<Room>, req: Api.RequestId): nat
    decreases |rooms|
  {
    if rooms == [] then 0 else Msg.Count(rooms[0].messages, Msg.ByRequest(req)) + Waiting(rooms[1..], req)
  }

  lemma {:induction false} WaitingUpdate(rooms: seq<Room>, i: nat, x: Room, req: Api.RequestId)
    requires i < |rooms|
    ensures Waiting(rooms[i := x], req) + Msg.Count(rooms[i].messages, Msg.ByRequest(req))
            == Waiting(rooms, req) + Msg.Count(x.messages, Msg.ByRequest(req))
    decreases |rooms|
  {
    if i > 0 {
      WaitingUpdate(rooms[1..], i - 1, x, req);
      assert rooms[i := x][1..] == rooms[1..][i - 1 := x];
    } else {
      assert rooms[i := x][1..] == rooms[1..];
    }
  }

  lemma {:induction false} WaitingNone(rooms: seq<Room>, req: Api.RequestId)
    requires PendingRoom(rooms, req) == |rooms|
    ensures Waiting(rooms, req) == 0
    decreases |rooms|
  {
    if rooms != [] {
      Msg.PendingIndexCount(rooms[0].messages, req);
      assert forall j :: 0 <= j < |rooms| - 1 ==> rooms[1..][j] == rooms[j + 1];
      assert PendingRoom(rooms[1..], req) == |rooms| - 1;
      WaitingNone(rooms[1..], req);
    }
  }

  /** A finished send settles exactly one waiting placeholder, if any waits:
      for a valid request ID, one fewer placeholder waits for it afterwards,
      and a finished send nobody waits for changes nothing. */
  lemma SendFinishedSettles(rooms: seq<Room>, req: Api.RequestId, result: Api.SendResult, messageId: string, timeStamp: nat)
    requires req != Api.InvalidRequestId
    ensures Waiting(rooms, req) == 0 ==> SendFinished(rooms, req, result, messageId, timeStamp) == rooms
    ensures Waiting(rooms, req) > 0 ==> Waiting(SendFinished(rooms, req, result, messageId, timeStamp), req) + 1 == Waiting(rooms, req)
  {
    var i := PendingRoom(rooms, req);
    if i == |rooms| {
      WaitingNone(rooms, req);
    } else {
      var ms := rooms[i].messages;
      var x := rooms[i].(messages := Msg.PatchPending(ms, req, messageId, timeStamp, Api.InvalidRequestId, result == Api.Failed));
      Msg.PatchSettles(ms, req, messageId, timeStamp, Api.InvalidRequestId, result == Api.Failed);
      WaitingUpdate(rooms, i, x, req);
      Msg.PendingIndexCount(ms, req);
    }
  }

  /** The ID passed to `loadMessages`: that of the first message that is not
      a placeholder. */
  function EarliestReal(ms: seq<Message>): (r: Option<string>)
    ensures r.None? <==> forall j :: 0 <= j < |ms| ==> ms[j].requestId != Api.InvalidRequestId
  {
    var i := Msg.PendingIndex(ms, Api.InvalidRequestId);
    if i == |ms| then None else Some(ms[i].id)
  }

  /** In a sorted list the message found is the earliest real one: no real
      message is older. */
  lemma EarliestRealIsEarliest(ms: seq<Message>, j: nat)
    requires Msg.Sorted(ms) && j < |ms| && ms[j].requestId == Api.InvalidRequestId
    ensures EarliestReal(ms).Some?
    ensures exists k :: (0 <= k <= j && ms[k].id == EarliestReal(ms).value && ms[k].requestId == Api.InvalidRequestId
      && ms[k].timeStamp <= ms[j].timeStamp)
  {
    var k := Msg.PendingIndex(ms, Api.InvalidRequestId);
    assert k <= j;
  }

  /** The `sendMessage` command: with a selected room and a valid request
      ID, a placeholder named after the request ID and time-stamped `now` is
      merged into the selected room; otherwise nothing changes. */
  function SendPlaceholder(rooms: seq<Room>, requestId: Api.RequestId, payload: string, now: nat): (r: seq<Room>)
    ensures |r| == |rooms|
    ensures rooms == [] || requestId == Api.InvalidRequestId ==> r == rooms
    ensures rooms != [] && requestId != Api.InvalidRequestId ==>
      r[1..] == rooms[1..] && r[0].chatId == rooms[0].chatId
      && r[0].messages == Msg.AddMessage(rooms[0].messages, Msg.Message(Decimal.ToDecimal(requestId), payload, "", now, requestId, false))
  {
    if rooms == [] || requestId == Api.InvalidRequestId then rooms
    else
      var placeholder := Msg.Message(Decimal.ToDecimal(requestId), payload, "", now, requestId, false);
      rooms[0 := rooms[0].(messages := Msg.AddMessage(rooms[0].messages, placeholder))]
  }

  /** After sending, the selected room holds a placeholder for the request
      with the typed text. */
  lemma SendPlaceholderWaits(rooms: seq<Room>, requestId: Api.RequestId, payload: string, now: nat)
    requires rooms != [] && requestId != Api.InvalidRequestId
    ensures exists m :: (m in SendPlaceholder(rooms, requestId, payload, now)[0].messages
      && m.requestId == requestId && m.content == payload && m.id == Decimal.ToDecimal(requestId))
  {
    var m := Msg.Message(Decimal.ToDecimal(requestId), payload, "", now, requestId, false);
    assert m in SendPlaceholder(rooms, requestId, payload, now)[0].messages;
  }

  /** The `selectChat` command: the first room with that ID trades places
      with the selected room; an unknown ID changes nothing. */
  function SelectChatRoom(rooms: seq<Room>, chatId: string): (r: Option<seq<Room>>)
    ensures r.None? <==> FindRoom(rooms, chatId) == |rooms|
    ensures r.Some? ==>
      var i := FindRoom(rooms, chatId);
      |r.value| == |rooms| && r.value[0] == rooms[i] && r.value[i] == rooms[0]
      && (forall j :: 0 < j < |rooms| && j != i ==> r.value[j] == rooms[j])
      && multiset(r.value) == multiset(rooms)
  {
    var i := FindRoom(rooms, chatId);
    if i == |rooms| then None
    else
      var r := rooms[0 := rooms[i]][i := rooms[0]];
      assert multiset(r) == multiset(rooms) by { SwapMultiset(rooms, i); }
      Some(r)
  }

  lemma SwapMultiset(rooms: seq<Room>, i: nat)
    requires 0 < |rooms| && i < |rooms|
    ensures multiset(rooms[0 := rooms[i]][i := rooms[0]]) == multiset(rooms)
  {
    if i > 0 {
      var r1 := rooms[0 := rooms[i]];
      assert multiset(r1) == multiset(rooms) - multiset{rooms[0]} + multiset{rooms[i]};
      assert r1[i] == rooms[i];
      assert multiset(r1[i := rooms[0]]) == multiset(r1) - multiset{rooms[i]} + multiset{rooms[0]};
    }
  }

  /** Selecting the selected room again changes nothing. */
  lemma SelectChatRoomTwice(rooms: seq<Room>, chatId: string)
    requires SelectChatRoom(rooms, chatId).Some?
    ensures SelectChatRoom(SelectChatRoom(rooms, chatId).value, chatId) == SelectChatRoom(rooms, chatId)
  {
    var r := SelectChatRoom(rooms, chatId).value;
    assert FindRoom(r, chatId) == 0;
    assert r[0 := r[0]][0 := r[0]] == r;
  }

  /** `connectionStatusChanged`: connecting queues a LoadChats command; a
      lost or closed connection forgets every room; the other statuses change
      nothing. */
  function StatusChanged(rooms: seq<Room>, queue: seq<Command>, s: Conn.Status): (r: (seq<Room>, seq<Command>))
    ensures s == Conn.Connected ==> r == (rooms, queue + [Command(LoadChats, "")])
    ensures s == Conn.ConnectionLost || s == Conn.Disconnected ==> r == ([], queue)
    ensures s == Conn.Connecting || s == Conn.Disconnecting ==> r == (rooms, queue)
  {
    match s
    case Connected => (rooms, queue + [Command(LoadChats, "")])
    case ConnectionLost => ([], queue)
    case Disconnected => ([], queue)
    case _ => (rooms, queue)
  }

  /** Once the connection is gone the example keeps nothing stale: later
      messages and finished sends find no room, and no room can be selected. */
  lemma LostConnectionForgets(rooms: seq<Room>, s: Conn.Status, ms: seq<ApiMessage>, req: Api.RequestId,
                              result: Api.SendResult, messageId: string, timeStamp: nat, chatId: string)
    requires s == Conn.ConnectionLost || s == Conn.Disconnected
    ensures ReceiveAll(StatusChanged(rooms, [], s).0, ms) == []
    ensures SendFinished(StatusChanged(rooms, [], s).0, req, result, messageId, timeStamp) == []
    ensures SelectChatRoom(StatusChanged(rooms, [], s).0, chatId).None?
  {
  }
}
