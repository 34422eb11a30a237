/** The Python chat example: its command parser and its list of chat rooms
    (the first one is the selected room), next to the C++ example it mirrors.

    Printing, the event loop and the chat-module calls are not modelled; a
    call's result is a parameter. The Python binding raises instead of
    returning an invalid request ID, so a placeholder always carries a
    non-zero ID. */
module PyChatExample {
  import opened Wrappers
  import Decimal
  import Text
  import Enumerate
  import Msg = ChatMessages
  import Api = ChatModule
  import Cpp = ChatExample

  /** `parse_command`'s result: the command type and the payload, `None`
      where Python has no payload. */
  datatype Command = Command(kind: Cpp.CommandType, payload: Option<string>)

  predicate StartsWith(input: string, prefix: string) {
    |prefix| <= |input| && input[..|prefix|] == prefix
  }

  /** `input.split(" ", 1)[-1]` when the split yields two pieces: everything
      after the first space anywhere in the input. */
  function AfterFirstSpace(input: string): (r: Option<string>)
    ensures r.None? <==> ' ' !in input
    ensures r.Some? ==> exists k :: 0 <= k < |input| && input[k] == ' ' && r.value == input[k + 1..]
  {
    var k := Text.IndexOf(input, ' ');
    if k == |input| then None else Some(input[k + 1..])
  }

  function ParseFrom(input: string, i: nat): Command
    requires i <= |Cpp.CommandStrings|
    decreases |Cpp.CommandStrings| - i
  {
    if i == |Cpp.CommandStrings| then
      if input == [] || input[0] == '/' then Command(Cpp.Unknown, None) else Command(Cpp.SendMessage, Some(input))
    else if StartsWith(input, Cpp.CommandStrings[i]) then Command(Cpp.KindAt(i), AfterFirstSpace(input))
    else ParseFrom(input, i + 1)
  }

  /** `parse_command`: the first command string the input starts with, with
      no check of what follows it; otherwise Unknown for empty input or a
      leading '/', and a message to send for anything else. */
  function ParseCommand(input: string): (c: Command)
    ensures c.kind == Cpp.SendMessage <==> input != [] && input[0] != '/'
    ensures c.kind == Cpp.SendMessage ==> c.payload == Some(input)
    ensures c.kind == Cpp.Unknown ==> c.payload == None
  {
    ParseFromSlash(input, 0);
    ParseFrom(input, 0)
  }

  lemma {:induction false} ParseFromSlash(input: string, i: nat)
    requires i <= |Cpp.CommandStrings|
    ensures ParseFrom(input, i).kind == Cpp.SendMessage <==> input != [] && input[0] != '/'
    ensures ParseFrom(input, i).kind == Cpp.SendMessage ==> ParseFrom(input, i).payload == Some(input)
    ensures ParseFrom(input, i).kind == Cpp.Unknown ==> ParseFrom(input, i).payload == None
    decreases |Cpp.CommandStrings| - i
  {
    if i < |Cpp.CommandStrings| {
      if StartsWith(input, Cpp.CommandStrings[i]) {
        assert Cpp.CommandStrings[i][0] == '/';
        assert input[0] == input[..|Cpp.CommandStrings[i]|][0];
      } else {
        ParseFromSlash(input, i + 1);
      }
    }
  }

  /** No command string starts another. */
  lemma CommandStringsPrefixFree(i: nat, j: nat)
    requires i < j < |Cpp.CommandStrings|
    ensures !StartsWith(Cpp.CommandStrings[j], Cpp.CommandStrings[i])
    ensures !StartsWith(Cpp.CommandStrings[i], Cpp.CommandStrings[j])
  {
    // The strings differ in their second character, except the two
    // "/delete" commands, which differ in their eighth.
    PrefixAgrees(Cpp.CommandStrings[i], Cpp.CommandStrings[j]);
    PrefixAgrees(Cpp.CommandStrings[j], Cpp.CommandStrings[i]);
  }

  lemma PrefixAgrees(a: string, b: string)
    ensures StartsWith(b, a) && |a| > 1 ==> a[1] == b[1]
    ensures StartsWith(b, a) && |a| > 7 ==> a[7] == b[7]
  {
    if StartsWith(b, a) && |a| > 7 {
      assert a[7] == b[..|a|][7];
    }
    if StartsWith(b, a) && |a| > 1 {
      assert a[1] == b[..|a|][1];
    }
  }

  /** Two prefixes of one string are prefixes of each other. */
  lemma PrefixesComparable(input: string, a: string, b: string)
    ensures StartsWith(input, a) && StartsWith(input, b) ==> StartsWith(a, b) || StartsWith(b, a)
  {
    if StartsWith(input, a) && StartsWith(input, b) && |b| <= |a| {
      assert a[..|b|] == input[..|a|][..|b|];
    } else if StartsWith(input, a) && StartsWith(input, b) {
      assert b[..|a|] == input[..|b|][..|a|];
    }
  }

  /** So at most one command string starts the input. */
  lemma StartsWithUnique(input: string, i: nat, j: nat)
    requires i < j < |Cpp.CommandStrings|
    ensures !(StartsWith(input, Cpp.CommandStrings[i]) && StartsWith(input, Cpp.CommandStrings[j]))
  {
    PrefixesComparable(input, Cpp.CommandStrings[i], Cpp.CommandStrings[j]);
    CommandStringsPrefixFree(i, j);
  }

  lemma {:induction false} ParseFromMatched(input: string, i: nat, k: nat)
    requires k <= i < |Cpp.CommandStrings| && StartsWith(input, Cpp.CommandStrings[i])
    ensures ParseFrom(input, k) == Command(Cpp.KindAt(i), AfterFirstSpace(input))
    decreases i - k
  {
    if k < i {
      StartsWithUnique(input, k, i);
      ParseFromMatched(input, i, k + 1);
    }
  }

  lemma {:induction false} ParseFromUnmatched(input: string, k: nat)
    requires k <= |Cpp.CommandStrings|
    requires forall i :: k <= i < |Cpp.CommandStrings| ==> !StartsWith(input, Cpp.CommandStrings[i])
    ensures ParseFrom(input, k).kind in {Cpp.SendMessage, Cpp.Unknown}
    decreases |Cpp.CommandStrings| - k
  {
    if k < |Cpp.CommandStrings| {
      ParseFromUnmatched(input, k + 1);
    }
  }

  /** The parser recognises command `i` exactly on input starting with its
      command string; the payload is whatever follows the first space. */
  lemma ParseCommandSpec(input: string, i: nat)
    requires i < |Cpp.CommandStrings|
    ensures ParseCommand(input).kind == Cpp.KindAt(i) <==> StartsWith(input, Cpp.CommandStrings[i])
    ensures StartsWith(input, Cpp.CommandStrings[i]) ==> ParseCommand(input).payload == AfterFirstSpace(input)
  {
    if StartsWith(input, Cpp.CommandStrings[i]) {
      ParseFromMatched(input, i, 0);
    } else if ParseCommand(input).kind == Cpp.KindAt(i) {
      var j :| 0 <= j < |Cpp.CommandStrings| && StartsWith(input, Cpp.CommandStrings[j]) by {
        if forall j :: 0 <= j < |Cpp.CommandStrings| ==> !StartsWith(input, Cpp.CommandStrings[j]) {
          ParseFromUnmatched(input, 0);
          assert false;
        }
      }
      ParseFromMatched(input, j, 0);
      Cpp.KindAtInjective(i, j);
      assert false;
    }
  }

  /** A command string alone parses without payload; followed by a space and
      an argument it parses to that argument. */
  lemma ParseCommandRoundTrip(i: nat, argument: string)
    requires i < |Cpp.CommandStrings|
    ensures ParseCommand(Cpp.CommandStrings[i]) == Command(Cpp.KindAt(i), None)
    ensures ParseCommand(Cpp.CommandStrings[i] + " " + argument) == Command(Cpp.KindAt(i), Some(argument))
  {
    var c := Cpp.CommandStrings[i];
    assert c[..|c|] == c;
    assert ' ' !in c;
    ParseCommandSpec(c, i);
    var input := c + " " + argument;
    assert input == c + (" " + argument);
    assert input[..|c|] == c;
    ParseCommandSpec(input, i);
    Text.IndexOfAfterPrefix(c, " " + argument, ' ');
    assert Text.IndexOf(" " + argument, ' ') == 0;
    assert input[|c| + 1..] == argument;
  }

  /** On input the C++ parser accepts as a command, both parsers agree on the
      command and, when there is a space, on the argument. */
  lemma ParsersAgree(input: string, i: nat)
    requires i < |Cpp.CommandStrings| && Cpp.Invokes(input, i)
    ensures ParseCommand(input).kind == Cpp.ParseCommand(input).kind
    ensures |input| > |Cpp.CommandStrings[i]| ==> ParseCommand(input).payload == Some(Cpp.ParseCommand(input).payload)
    ensures |input| == |Cpp.CommandStrings[i]| ==> ParseCommand(input).payload == None
  {
    var c := Cpp.CommandStrings[i];
    Cpp.ParseCommandSpec(input, i);
    ParseCommandSpec(input, i);
    CommandStringNoSpace(i);
    if |input| > |c| {
      SpaceAfterCommand(input, c);
    } else {
      assert input == c;
    }
  }

  lemma CommandStringNoSpace(i: nat)
    requires i < |Cpp.CommandStrings|
    ensures ' ' !in Cpp.CommandStrings[i]
  {
  }

  /** Input that is a space-free word followed by a space splits there. */
  lemma SpaceAfterCommand(input: string, c: string)
    requires |c| < |input| && input[..|c|] == c && input[|c|] == ' ' && ' ' !in c
    ensures AfterFirstSpace(input) == Some(input[|c| + 1..])
  {
    assert input == c + input[|c|..];
    Text.IndexOfAfterPrefix(c, input[|c|..], ' ');
  }

  /** Where the two differ: Python takes a command string followed by
      anything as that command, and its payload starts after the first space
      anywhere in the line. */
  lemma ParsersDiffer()
    ensures Cpp.ParseCommand("/chatsX").kind == Cpp.Unknown
    ensures ParseCommand("/chatsX") == Command(Cpp.PrintChats, None)
    ensures ParseCommand("/selectChatA B") == Command(Cpp.SelectChat, Some("B"))
  {
    SuffixedCommand();
    SpaceInsideArgument();
  }

  lemma SuffixedCommand()
    ensures Cpp.ParseCommand("/chatsX").kind == Cpp.Unknown
    ensures ParseCommand("/chatsX") == Command(Cpp.PrintChats, None)
  {
    var i := 2;
    assert Cpp.CommandStrings[i] == "/chats";
    assert !Cpp.Invokes("/chatsX", i);
    Cpp.ParseCommandSpec("/chatsX", i);
    assert StartsWith("/chatsX", Cpp.CommandStrings[i]);
    ParseCommandSpec("/chatsX", i);
    assert ' ' !in "/chatsX";
  }

  lemma SpaceInsideArgument()
    ensures ParseCommand("/selectChatA B") == Command(Cpp.SelectChat, Some("B"))
  {
    assert StartsWith("/selectChatA B", Cpp.CommandStrings[5]);
    ParseCommandSpec("/selectChatA B", 5);
    SpaceAfterCommand("/selectChatA B", "/selectChatA");
    assert "/selectChatA B"[13..] == "B";
  }

  /** A message as the Python example keeps it; `requestId` is `None` for a
      delivered message. */
  type Message = Msg.Message<Option<int>>

  /** What the example stores in a room's endpoint slots: Python does not
      check which kind of value goes where. */
  datatype Slot = Number(n: nat) | Kind(t: Api.EndpointType)

  /** `ChatRoom`; `closedMark` is the `chat_state` attribute `chat_closed`
      adds next to `state`. */
  datatype Room = Room(
    chatId: string, title: string, endpointId: Slot, endpointType: Slot,
    state: Api.ChatState, closedMark: Option<Api.ChatState>, messages: seq<Message>)

  /** The `/loadChats` command: one room per chat, in the order obtained. */
  function LoadRooms(chats: seq<Api.Chat>): (r: seq<Room>)
    ensures |r| == |chats|
    ensures forall j :: 0 <= j < |chats| ==>
      r[j] == Room(chats[j].chatId, chats[j].title, Number(chats[j].chatTypeId), Kind(chats[j].endpointType),
                   chats[j].state, None, [])
  {
    seq(|chats|, j requires 0 <= j < |chats| =>
      Room(chats[j].chatId, chats[j].title, Number(chats[j].chatTypeId), Kind(chats[j].endpointType), chats[j].state, None, []))
  }

  /** `chat_created`: appends an open room, with the endpoint type passed in
      the endpoint-ID position and the ID in the type position. */
  function ChatCreated(rooms: seq<Room>, chatId: string, title: string, endpointType: Api.EndpointType, endpointId: nat)
    : (r: seq<Room>)
    ensures |r| == |rooms| + 1 && r[..|rooms|] == rooms
    ensures r[|rooms|].chatId == chatId && r[|rooms|].state == Api.Open && r[|rooms|].messages == []
  {
    rooms + [Room(chatId, title, Kind(endpointType), Number(endpointId), Api.Open, None, [])]
  }

  /** The same chat, created by notification or loaded by `/loadChats`,
      ends up with its endpoint slots exchanged. */
  lemma CreatedSlotsSwapped(chat: Api.Chat)
    requires chat.state == Api.Open
    ensures var created := ChatCreated([], chat.chatId, chat.title, chat.endpointType, chat.chatTypeId)[0];
      var loaded := LoadRooms([chat])[0];
      created.endpointId == loaded.endpointType && created.endpointType == loaded.endpointId
      && created.endpointId != loaded.endpointId
  {
  }

  /** `chat_created` as evidently intended: the endpoint ID and type in the
      constructor's own order. */
  function ChatCreatedCorrected(rooms: seq<Room>, chatId: string, title: string, endpointType: Api.EndpointType, endpointId: nat)
    : (r: seq<Room>)
    ensures |r| == |rooms| + 1 && r[..|rooms|] == rooms
    ensures r[|rooms|].chatId == chatId && r[|rooms|].state == Api.Open && r[|rooms|].messages == []
    ensures r[|rooms|].endpointId == Number(endpointId) && r[|rooms|].endpointType == Kind(endpointType)
  {
    rooms + [Room(chatId, title, Number(endpointId), Kind(endpointType), Api.Open, None, [])]
  }

  /** With the corrected slots a created room is the room `/loadChats` would
      build for the same open chat. */
  lemma CreatedMatchesLoaded(rooms: seq<Room>, chat: Api.Chat)
    requires chat.state == Api.Open
    ensures ChatCreatedCorrected(rooms, chat.chatId, chat.title, chat.endpointType, chat.chatTypeId)
      == rooms + LoadRooms([chat])
  {
  }

  function FindRoom(rooms: seq<Room>, chatId: string): (i: nat)
    ensures i <= |rooms|
    ensures i < |rooms| ==> rooms[i].chatId == chatId
    ensures forall j :: 0 <= j < i ==> rooms[j].chatId != chatId
  {
    Enumerate.FirstWhere(rooms, (r: Room) => r.chatId == chatId)
  }

  /** `chats_removed`: the list comprehension keeping the unlisted rooms in order. */
  function ChatsRemoved(rooms: seq<Room>, chatIds: seq<string>): (r: seq<Room>)
    ensures |r| <= |rooms|
    ensures forall x :: x in r <==> x in rooms && x.chatId !in chatIds
    decreases |rooms|
  {
    if rooms == [] then []
    else (if rooms[0].chatId in chatIds then [] else [rooms[0]]) + ChatsRemoved(rooms[1..], chatIds)
  }

  /** Removing a room leaves the selected room selected unless it was removed. */
  lemma ChatsRemovedKeepsSelection(rooms: seq<Room>, chatIds: seq<string>)
    requires rooms != [] && rooms[0].chatId !in chatIds
    ensures ChatsRemoved(rooms, chatIds) != [] && ChatsRemoved(rooms, chatIds)[0] == rooms[0]
  {
  }

  function UpdateRoom(rooms: seq<Room>, chatId: string, f: Room -> Room): (r: seq<Room>)
    ensures |r| == |rooms|
    ensures FindRoom(rooms, chatId) == |rooms| ==> r == rooms
    ensures FindRoom(rooms, chatId) < |rooms| ==> r == rooms[FindRoom(rooms, chatId) := f(rooms[FindRoom(rooms, chatId)])]
  {
    var i := FindRoom(rooms, chatId);
    if i == |rooms| then rooms else rooms[i := f(rooms[i])]
  }

  /** `chat_closed`: the closed state goes into a new `chat_state`
      attribute, so the `state` the example prints stays as it was. */
  function ChatClosed(rooms: seq<Room>, chatId: string): (r: seq<Room>)
    ensures |r| == |rooms|
    ensures forall j :: 0 <= j < |rooms| ==> r[j].state == rooms[j].state && r[j].chatId == rooms[j].chatId
    ensures FindRoom(rooms, chatId) < |rooms| ==> r[FindRoom(rooms, chatId)].closedMark == Some(Api.Closed)
  {
    UpdateRoom(rooms, chatId, (x: Room) => x.(closedMark := Some(Api.Closed)))
  }

  /** The C++ example closes the room it finds; the Python one leaves every
      room's state as it was. */
  lemma ClosingDiffers(chatId: string)
    ensures var cpp := Cpp.ChatClosed([Cpp.Room(chatId, "", 0, Api.Machine, Api.Open, [])], chatId);
      cpp[0].state == Api.Closed
    ensures ChatClosed([Room(chatId, "", Number(0), Kind(Api.Machine), Api.Open, None, [])], chatId)[0].state == Api.Open
  {
    assert Cpp.FindRoom([Cpp.Room(chatId, "", 0, Api.Machine, Api.Open, [])], chatId) == 0;
  }

  /** `chat_closed` as evidently intended: the room found is closed and no
      other room changes. */
  function ChatClosedCorrected(rooms: seq<Room>, chatId: string): (r: seq<Room>)
    ensures |r| == |rooms|
    ensures forall j :: 0 <= j < |rooms| && j != FindRoom(rooms, chatId) ==> r[j] == rooms[j]
    ensures FindRoom(rooms, chatId) < |rooms| ==> r[FindRoom(rooms, chatId)] == rooms[FindRoom(rooms, chatId)].(state := Api.Closed)
  {
    UpdateRoom(rooms, chatId, (x: Room) => x.(state := Api.Closed))
  }

  /** The C++ example's rooms as the Python example stores them, without
      their messages. */
  function FromCppRooms(rooms: seq<Cpp.Room>): (r: seq<Room>)
    ensures |r| == |rooms|
    ensures forall j :: 0 <= j < |rooms| ==> r[j].chatId == rooms[j].chatId && r[j].state == rooms[j].state
  {
    seq(|rooms|, j requires 0 <= j < |rooms| =>
      Room(rooms[j].chatId, rooms[j].title, Number(rooms[j].endpointId), Kind(rooms[j].endpointType), rooms[j].state, None, []))
  }

  /** Corrected, the Python example closes exactly the rooms the C++ one does. */
  lemma ClosingAgrees(rooms: seq<Cpp.Room>, chatId: string)
    ensures |Cpp.ChatClosed(rooms, chatId)| == |rooms|
    ensures forall j :: 0 <= j < |rooms| ==>
      Cpp.ChatClosed(rooms, chatId)[j].state == ChatClosedCorrected(FromCppRooms(rooms), chatId)[j].state
  {
    var py := FromCppRooms(rooms);
    var i := FindRoom(py, chatId);
    var k := Cpp.FindRoom(rooms, chatId);
    assert i == k;
  }

  /** `history_deleted`. */
  function HistoryDeleted(rooms: seq<Room>, chatId: string): (r: seq<Room>)
    ensures |r| == |rooms|
    ensures forall j :: 0 <= j < |rooms| && j != FindRoom(rooms, chatId) ==> r[j] == rooms[j]
    ensures FindRoom(rooms, chatId) < |rooms| ==>
      r[FindRoom(rooms, chatId)] == rooms[FindRoom(rooms, chatId)].(messages := [])
  {
    UpdateRoom(rooms, chatId, (x: Room) => x.(messages := []))
  }

  /** One reported message (`received_messages`, `messages_loaded`) merged
      into the first room with its chat ID. */
  function Receive(rooms: seq<Room>, m: Cpp.ApiMessage): (r: seq<Room>)
    ensures |r| == |rooms|
    ensures forall j :: 0 <= j < |rooms| && j != FindRoom(rooms, m.chatId) ==> r[j] == rooms[j]
    ensures FindRoom(rooms, m.chatId) < |rooms| ==>
      var i := FindRoom(rooms, m.chatId);
      r[i].chatId == rooms[i].chatId
      && r[i].messages == Msg.AddMessage(rooms[i].messages, Msg.Message(m.messageId, m.content, m.sender, m.timeStamp, None, false))
  {
    var x := Msg.Message(m.messageId, m.content, m.sender, m.timeStamp, None, false);
    UpdateRoom(rooms, m.chatId, (room: Room) => room.(messages := Msg.AddMessage(room.messages, x)))
  }

  /** The `sendMessageFinishedCallback` argument: a member of a plain
      `enum.Enum`, which is true in a boolean context whatever its value. */
  function Truthy(result: Api.SendResult): (b: bool)
    ensures b
  {
    match result
    case Succeeded => true
    case Failed => true
  }

  function PendingRoom(rooms: seq<Room>, req: nat): (i: nat)
    ensures i <= |rooms|
    ensures i < |rooms| ==> Msg.PendingIndex(rooms[i].messages, Some(req)) < |rooms[i].messages|
    ensures forall j :: 0 <= j < i ==> Msg.PendingIndex(rooms[j].messages, Some(req)) == |rooms[j].messages|
  {
    Enumerate.FirstWhere(rooms, (r: Room) => Msg.PendingIndex(r.messages, Some(req)) < |r.messages|)
  }

  /** The patch both versions below share: the first placeholder for `req`,
      in room order, takes the delivered ID and time stamp, stops waiting and
      records `failed`; its room is re-sorted. */
  function Patch(rooms: seq<Room>, req: nat, failed: bool, messageId: string, timeStamp: nat): (r: seq<Room>)
    ensures |r| == |rooms|
    ensures PendingRoom(rooms, req) == |rooms| ==> r == rooms
    ensures forall j :: 0 <= j < |rooms| && j != PendingRoom(rooms, req) ==> r[j] == rooms[j]
    ensures PendingRoom(rooms, req) < |rooms| ==>
      var i := PendingRoom(rooms, req);
      r[i] == rooms[i].(messages := Msg.PatchPending(rooms[i].messages, Some(req), messageId, timeStamp, None, failed))
  {
    var i := PendingRoom(rooms, req);
    if i == |rooms| then rooms
    else rooms[i := rooms[i].(messages := Msg.PatchPending(rooms[i].messages, Some(req), messageId, timeStamp, None, failed))]
  }

  /** `send_message_finished` as written: the failure mark is
      `not send_result`. */
  function SendFinishedAsWritten(rooms: seq<Room>, req: nat, result: Api.SendResult, messageId: string, timeStamp: nat)
    : (r: seq<Room>)
    ensures |r| == |rooms|
    ensures PendingRoom(rooms, req) == |rooms| ==> r == rooms
    ensures forall j :: 0 <= j < |rooms| && j != PendingRoom(rooms, req) ==> r[j] == rooms[j]
  {
    Patch(rooms, req, !Truthy(result), messageId, timeStamp)
  }

  /** `send_message_finished` as the C++ example does it: the mark records a
      Failed result. */
  function SendFinished(rooms: seq<Room>, req: nat, result: Api.SendResult, messageId: string, timeStamp: nat)
    : (r: seq<Room>)
    ensures |r| == |rooms|
    ensures PendingRoom(rooms, req) == |rooms| ==> r == rooms
    ensures forall j :: 0 <= j < |rooms| && j != PendingRoom(rooms, req) ==> r[j] == rooms[j]
  {
    Patch(rooms, req, result == Api.Failed, messageId, timeStamp)
  }

  /** The patched placeholder of a room: the message that took `messageId`. */
  function Settled(rooms: seq<Room>, req: nat, failed: bool, messageId: string, timeStamp: nat): (m: Message)
    requires PendingRoom(rooms, req) < |rooms|
    ensures m.id == messageId && m.requestId == None && m.sendFailed == failed
  {
    var ms := rooms[PendingRoom(rooms, req)].messages;
    Msg.Delivered(ms[Msg.PendingIndex(ms, Some(req))], messageId, timeStamp, None, failed)
  }

  /** As written, a failed send is never marked: the settled placeholder
      reads as delivered whatever the result. */
  lemma FailureNeverMarked(rooms: seq<Room>, req: nat, messageId: string, timeStamp: nat)
    requires PendingRoom(rooms, req) < |rooms|
    ensures var i := PendingRoom(rooms, req);
      Settled(rooms, req, false, messageId, timeStamp)
        in multiset(SendFinishedAsWritten(rooms, req, Api.Failed, messageId, timeStamp)[i].messages)
    ensures SendFinishedAsWritten(rooms, req, Api.Failed, messageId, timeStamp)
         == SendFinishedAsWritten(rooms, req, Api.Succeeded, messageId, timeStamp)
  {
  }

  /** Corrected, the settled placeholder records the result: marked as
      failed exactly when the send failed. */
  lemma FailureMarked(rooms: seq<Room>, req: nat, result: Api.SendResult, messageId: string, timeStamp: nat)
    requires PendingRoom(rooms, req) < |rooms|
    ensures var i := PendingRoom(rooms, req);
      Settled(rooms, req, result == Api.Failed, messageId, timeStamp)
        in multiset(SendFinished(rooms, req, result, messageId, timeStamp)[i].messages)
  {
  }

  /** How many placeholders, over all rooms, wait for `req`. */
  function Waiting(rooms: seq<Room>, req: nat): nat
    decreases |rooms|
  {
    if rooms == [] then 0 else Msg.Count(rooms[0].messages, Msg.ByRequest(Some(req))) + Waiting(rooms[1..], req)
  }

  lemma {:induction false} WaitingUpdate(rooms: seq<Room>, i: nat, x: Room, req: nat)
    requires i < |rooms|
    ensures Waiting(rooms[i := x], req) + Msg.Count(rooms[i].messages, Msg.ByRequest(Some(req)))
            == Waiting(rooms, req) + Msg.Count(x.messages, Msg.ByRequest(Some(req)))
    decreases |rooms|
  {
    if i > 0 {
      WaitingUpdate(rooms[1..], i - 1, x, req);
      assert rooms[i := x][1..] == rooms[1..][i - 1 := x];
    } else {
      assert rooms[i := x][1..] == rooms[1..];
    }
  }

  lemma {:induction false} WaitingNone(rooms: seq<Room>, req: nat)
    requires PendingRoom(rooms, req) == |rooms|
    ensures Waiting(rooms, req) == 0
    decreases |rooms|
  {
    if rooms != [] {
      Msg.PendingIndexCount(rooms[0].messages, Some(req));
      assert forall j :: 0 <= j < |rooms| - 1 ==> rooms[1..][j] == rooms[j + 1];
      assert PendingRoom(rooms[1..], req) == |rooms| - 1;
      WaitingNone(rooms[1..], req);
    }
  }

  /** A finished send settles one waiting placeholder, if any waits; since a
      settled message holds `None`, no request ID is exempt, unlike the C++
      example's 0. */
  lemma SendFinishedSettles(rooms: seq<Room>, req: nat, failed: bool, messageId: string, timeStamp: nat)
    ensures Waiting(rooms, req) == 0 ==> Patch(rooms, req, failed, messageId, timeStamp) == rooms
    ensures Waiting(rooms, req) > 0 ==> Waiting(Patch(rooms, req, failed, messageId, timeStamp), req) + 1 == Waiting(rooms, req)
  {
    var i := PendingRoom(rooms, req);
    if i == |rooms| {
      WaitingNone(rooms, req);
    } else {
      var ms := rooms[i].messages;
      var x := rooms[i].(messages := Msg.PatchPending(ms, Some(req), messageId, timeStamp, None, failed));
      Msg.PatchSettles(ms, Some(req), messageId, timeStamp, None, failed);
      WaitingUpdate(rooms, i, x, req);
      Msg.PendingIndexCount(ms, Some(req));
    }
  }

  /** The `/loadMessages` anchor: the first message whose
      `send_request_id` is falsy, that is `None` or 0. */
  function EarliestReal(ms: seq<Message>): (r: Option<string>)
    ensures r.None? <==> forall j :: 0 <= j < |ms| ==> ms[j].requestId.Some? && ms[j].requestId.value != 0
    ensures r.Some? ==> exists j :: (0 <= j < |ms| && ms[j].id == r.value
      && (ms[j].requestId.None? || ms[j].requestId == Some(0)))
  {
    var i := Enumerate.FirstWhere(ms, (m: Message) => m.requestId.None? || m.requestId == Some(0));
    if i == |ms| then None else Some(ms[i].id)
  }

  /** The `/send` path: the placeholder, named after the request ID, goes
      into the selected room; without rooms nothing changes. */
  function SendPlaceholder(rooms: seq<Room>, requestId: nat, payload: string, now: nat): (r: seq<Room>)
    requires requestId != 0
    ensures |r| == |rooms|
    ensures rooms == [] ==> r == rooms
    ensures rooms != [] ==>
      r[1..] == rooms[1..] && r[0].chatId == rooms[0].chatId
      && Msg.Message(Decimal.ToDecimal(requestId), payload, "", now, Some(requestId), false) in r[0].messages
  {
    if rooms == [] then rooms
    else
      var placeholder := Msg.Message(Decimal.ToDecimal(requestId), payload, "", now, Some(requestId), false);
      rooms[0 := rooms[0].(messages := Msg.AddMessage(rooms[0].messages, placeholder))]
  }

  /** A placeholder never serves as the `/loadMessages` anchor. */
  lemma PlaceholderNotReal(rooms: seq<Room>, requestId: nat, payload: string, now: nat)
    requires rooms != [] && requestId != 0
    requires forall j :: 0 <= j < |rooms[0].messages| ==> rooms[0].messages[j].requestId.Some? && rooms[0].messages[j].requestId.value != 0
    ensures EarliestReal(SendPlaceholder(rooms, requestId, payload, now)[0].messages).None?
  {
    var ms := rooms[0].messages;
    var p := Msg.Message(Decimal.ToDecimal(requestId), payload, "", now, Some(requestId), false);
    var r := SendPlaceholder(rooms, requestId, payload, now)[0].messages;
    assert multiset(r) == multiset(Msg.ReplaceOrAppend(ms, p));
    forall j | 0 <= j < |r| ensures r[j].requestId.Some? && r[j].requestId.value != 0 {
      assert r[j] in multiset(Msg.ReplaceOrAppend(ms, p));
      var q := Msg.ReplaceOrAppend(ms, p);
      var k :| 0 <= k < |q| && q[k] == r[j];
      if k < |ms| && q[k] != p {
        assert q[k] == ms[k];
      }
    }
  }

  /** The `/selectChat` command: the room moves to the front and the others
      keep their order; an unknown ID changes nothing. */
  function SelectChatRoom(rooms: seq<Room>, chatId: string): (r: Option<seq<Room>>)
    ensures r.None? <==> FindRoom(rooms, chatId) == |rooms|
    ensures r.Some? ==>
      var i := FindRoom(rooms, chatId);
      r.value == [rooms[i]] + rooms[..i] + rooms[i + 1..]
      && multiset(r.value) == multiset(rooms)
  {
    var i := FindRoom(rooms, chatId);
    if i == |rooms| then None
    else
      assert rooms == rooms[..i] + [rooms[i]] + rooms[i + 1..];
      Some([rooms[i]] + rooms[..i] + rooms[i + 1..])
  }

  /** Unlike the C++ example's swap, a move to the front keeps the relative
      order of every other room. */
  lemma SelectKeepsOthersInOrder(rooms: seq<Room>, chatId: string)
    requires SelectChatRoom(rooms, chatId).Some?
    ensures var i := FindRoom(rooms, chatId);
      SelectChatRoom(rooms, chatId).value[1..] == rooms[..i] + rooms[i + 1..]
    ensures SelectChatRoom(SelectChatRoom(rooms, chatId).value, chatId) == SelectChatRoom(rooms, chatId)
  {
    var i := FindRoom(rooms, chatId);
    var r := SelectChatRoom(rooms, chatId).value;
    assert r[1..] == rooms[..i] + rooms[i + 1..];
    assert FindRoom(r, chatId) == 0;
    assert [r[0]] + r[..0] + r[1..] == r;
  }
}
