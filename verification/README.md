# TeamViewer IoT agent SDK — a Dafny model of its core

This project models the core of the TeamViewer IoT agent SDK in Dafny 4.11. The SDK lets a device-side
program talk to the local TeamViewer IoT agent. It registers with the agent, runs a set of
services (access control, chat, image and screen updates, instant support, session status),
and lets the agent's remote operators drive the device. Every component is written as
immutable data and pure functions, or short methods with loops. Calls that go out of process
(gRPC or socket requests, the agent's answers, Qt signals) become parameters or effect lists
that an operation returns.

The modules follow the program's structure:

- **Agent API.** `AgentConnection`, `AccessControlModule`, `ChatModule`,
  `InstantSupportModule` and `TVSessionManagementModule` cover the modules an SDK user
  drives, with the connection state machine and the per-module registration. `SessionTracker`
  counts the sessions a module sees open and close. `Observer` is the registry of callbacks
  keyed by owner.
- **Private layer.** `CommunicationChannel` is the gRPC channel to the agent:
  - registration and version negotiation;
  - the calls the modules make;
  - the URL checks for the agent's API and its socket locations.

  `ServicesMediator` starts and tears down the per-service servers and clients and
  keeps the set of running services as a bit mask.
- **Communication layer.** `ServiceBase` is the abstract server and client, with their
  start, stop and connection checks. `AccessControlService` holds the conversions of
  `Convert.h`. `ChatService` covers the chat in and out service clients with their response
  decoding. `ImageService` covers the image server and client, including chunking. `Url`
  and `Version` hold the URL and version-number rules that the test vectors pin down, and
  `UrlVectors` and `VersionVectors` state each vector as a lemma.
- **Qt remote-control plugin.** `CommunicationAdapter` translates between the plugin and the
  agent's services. `TVQtRCPlugin` holds the plugin's state: control mode, sessions,
  access modes, instant support and feature availability. `XkbMap` translates X keyboard
  symbols and modifier masks to Qt keys and modifiers.
- **Examples.**
  - `ChatExample` and `ChatMessages` model the C++ chat example: room bookkeeping and a
    timestamp-sorted message list.
  - `PyChatExample` models the Python chat example.
  - `QtAppShared`, `QtAppModel` and `QtSimulateAppModel` model the two Qt example
    applications' `AppModel`s.
- **Helpers.** `Wrappers`, `Text`, `Decimal` and `Seqs` are small shared definitions. `Enumerate`
  is the visiting pattern the modules share: hand each item to a callback and stop at the
  first one it declines.

Integers are unbounded. Where the source's width matters, it is written out, for example the
32-bit version fields and the `uint32` product of a timeout in milliseconds.

## Model

| member | source | states |
|---|---|---|
| AccessControlModule.FeatureFromCommunication | TVAgentAPI/Library/internal/AccessControl/AccessControlModule.cpp:54-69 | a channel feature converts only to a listed API feature (ScreenRecording and unknown values fail) |
| AccessControlModule.FeatureToCommunication | TVAgentAPI/Library/internal/AccessControl/AccessControlModule.cpp:71-86 | an API feature converts exactly when it is one of the three listed features |
| AccessControlModule.AccessFromCommunication | TVAgentAPI/Library/internal/AccessControl/AccessControlModule.cpp:88-103 | a channel access level converts exactly when it is listed, and only to a listed level |
| AccessControlModule.AccessToCommunication | TVAgentAPI/Library/internal/AccessControl/AccessControlModule.cpp:105-120 | an API access level converts exactly when it is listed |
| AccessControlModule.ConversionsRoundTrip | TVAgentAPI/Library/internal/AccessControl/AccessControlModule.cpp:54-120 | the four conversions are mutually inverse wherever they succeed; remote view travels as the channel's RemoteView and ScreenRecording has no API counterpart |
| AccessControlModule.GetAccess | TVAgentAPI/Library/internal/AccessControl/AccessControlModule.cpp:158-178 | the channel is asked only for a live connection and a listed feature; success iff the channel answers with a listed level, which is then the output; on failure the output is untouched |
| AccessControlModule.SetAccess | TVAgentAPI/Library/internal/AccessControl/AccessControlModule.cpp:180-195 | the channel is called only for a live connection with both arguments listed, with the converted pair; the result is the channel's answer |
| AccessControlModule.Reply | TVAgentAPI/Library/internal/AccessControl/AccessControlModule.cpp:122-133 | accept and reject send a confirmation reply carrying the converted feature and the accept flag, only for a live connection and a listed feature |
| AccessControlModule.OnAccessChanged | TVAgentAPI/Library/internal/AccessControl/AccessControlModule.cpp:219-237 | a change notification reaches the host iff both values convert, and then carries exactly the notified feature and level |
| AccessControlModule.OnAccessRequested | TVAgentAPI/Library/internal/AccessControl/AccessControlModule.cpp:239-258 | a confirmation request reaches the host iff the feature converts, carrying that feature |
| AccessControlModule.RequestIgnoresTimeout | TVAgentAPI/Library/internal/AccessControl/AccessControlModule.cpp:241-243 | the request timeout never changes what the host sees |
| AccessControlService.ValidateAccessControl | CommunicationLayer/src/Services/Library/internal/AccessControlService/Convert.h:35-42 | a wire feature is valid exactly when it is listed, screen recording included |
| AccessControlService.ToAccessControl | CommunicationLayer/src/Services/Library/internal/AccessControlService/Convert.h:44-70 | a wire feature converts to a listed feature; on failure the output parameter keeps its previous value |
| AccessControlService.FromAccessControl | CommunicationLayer/src/Services/Library/internal/AccessControlService/Convert.h:72-96 | every listed feature converts, to a value the wire validation accepts; an unlisted one leaves the output untouched |
| AccessControlService.ValidateAccess | CommunicationLayer/src/Services/Library/internal/AccessControlService/Convert.h:98-104 | a wire access level is valid exactly when it is listed |
| AccessControlService.ToAccess | CommunicationLayer/src/Services/Library/internal/AccessControlService/Convert.h:106-129 | a wire access level converts to a listed level; on failure the output keeps its previous value |
| AccessControlService.FromAccess | CommunicationLayer/src/Services/Library/internal/AccessControlService/Convert.h:131-152 | every listed access level converts, to a value the wire validation accepts |
| AccessControlService.FeatureRoundTrip | CommunicationLayer/src/Services/Library/internal/AccessControlService/Convert.h:35-96 | validation holds exactly when ToAccessControl succeeds, and the two feature conversions are inverse on listed values |
| AccessControlService.AccessRoundTrip | CommunicationLayer/src/Services/Library/internal/AccessControlService/Convert.h:98-152 | validation holds exactly when ToAccess succeeds, and the two access conversions are inverse on listed values |
| AgentConnection.Start | TVAgentAPI/Library/internal/AgentConnection/AgentConnection.cpp:81-117 | start is ignored while Connecting, Connected or ConnectionLost; otherwise it subscribes to both channel signals, sets Connecting and queues exactly one Connecting notification |
| AgentConnection.Stop | TVAgentAPI/Library/internal/AgentConnection/AgentConnection.cpp:119-133 | stop is ignored when Disconnected or Disconnecting; otherwise it drops both subscriptions, ends Disconnected and queues Disconnecting then Disconnected |
| AgentConnection.Established | TVAgentAPI/Library/internal/AgentConnection/AgentConnection.cpp:90-100 | the agent becoming reachable queues Connected only while subscribed and leaves the status unchanged |
| AgentConnection.Lost | TVAgentAPI/Library/internal/AgentConnection/AgentConnection.cpp:102-112 | the agent being lost queues ConnectionLost only while subscribed and leaves the status unchanged |
| AgentConnection.ProcessEvents | TVAgentAPI/Library/internal/AgentConnection/AgentConnection.cpp:145-148 | processing empties the queue and hands the host every pending notification in order, or none without a callback; the answer is true exactly when at least one queued action was processed, as documented at TVAgentAPI/Library/export/TVAgentAPI/IAgentConnection.h:84 |
| AgentConnection.ProcessEventsTwice | TVAgentAPI/Library/internal/AgentConnection/AgentConnection.cpp:145-148 | processing right after processing delivers nothing, answers false and changes nothing more |
| AgentConnection.GetModule | TVAgentAPI/Library/internal/AgentConnection/AgentConnection.cpp:177-185 | a module type maps to one module created on first request with a fresh identity; other types are untouched |
| AgentConnection.StepValid | TVAgentAPI/Library/internal/AgentConnection/AgentConnection.cpp:81-185 | every operation keeps the invariant: subscribed exactly while Connecting, status only Disconnected or Connecting, module identities distinct |
| AgentConnection.RunValid | TVAgentAPI/Library/internal/AgentConnection/AgentConnection.cpp:135-138 | along any sequence of calls the invariant holds, so getStatus never returns Connected, ConnectionLost or Disconnecting |
| AgentConnection.SignalsAfterStop | TVAgentAPI/Library/internal/AgentConnection/AgentConnection.cpp:126-127 | after stop, channel signals queue nothing |
| AgentConnection.GetModuleTwice | TVAgentAPI/Library/internal/AgentConnection/AgentConnection.cpp:177-185 | asking twice for a module yields the same module and no further change |
| AgentConnection.ConnectCycle | TVAgentAPI/Library/internal/AgentConnection/AgentConnection.cpp:81-175 | start, agent reachable, stop and one processEvents deliver Connecting, Connected, Disconnecting, Disconnected in that order |
| AgentConnection.StepFifo | TVAgentAPI/Library/internal/AgentConnection/AgentConnection.cpp:145-175 | one step: what it drains plus what stays queued equals the old queue plus what it posts |
| AgentConnection.RunFifo | TVAgentAPI/Library/internal/AgentConnection/AgentConnection.cpp:145-175 | over any run, the dispatcher neither loses, duplicates nor reorders notifications |
| ChatExample.KindAt | examples/cpp/Chat/main.cpp:42-68 | the typed command strings map to the first eight command types, never LoadChats, SendMessage or Unknown |
| ChatExample.KindAtInjective | examples/cpp/Chat/main.cpp:42-68 | distinct command strings name distinct command types |
| ChatExample.ParseCommand | examples/cpp/Chat/main.cpp:451-477 | input is a message to send exactly when it is non-empty and does not start with '/', and then the payload is the whole input; Unknown carries no payload; LoadChats is never parsed |
| ChatExample.ParseFromSlash | examples/cpp/Chat/main.cpp:451-477 | the same facts hold for the scan started at any command index |
| ChatExample.InvokesUnique | examples/cpp/Chat/main.cpp:57-68 | no input invokes two command strings (no command string followed by a space starts another) |
| ChatExample.ParseFromInvoked | examples/cpp/Chat/main.cpp:453-468 | the scan returns the command the input invokes, with what follows the space as argument |
| ChatExample.ParseFromNone | examples/cpp/Chat/main.cpp:453-476 | input that invokes no command string is never parsed as a typed command |
| ChatExample.ParseCommandSpec | examples/cpp/Chat/main.cpp:451-477 | a typed command is recognised exactly when the input is its string alone or followed by a space, with the rest as argument |
| ChatExample.ParseCommandRoundTrip | examples/cpp/Chat/main.cpp:451-477 | typing a command string, optionally followed by a space and an argument, gives back that command and argument |
| ChatExample.FindRoom | examples/cpp/Chat/main.cpp:161-171 | the lookup finds the first room with the ID, or reports none when no room has it |
| ChatExample.LoadRooms | examples/cpp/Chat/main.cpp:185-219 | the visited chats become the room list in order, with their IDs and states and no messages |
| ChatExample.LoadRoomsFromModule | examples/cpp/Chat/main.cpp:185-219 | the always-accepting enumerator yields one room per fetched chat on success and none on failure; a loaded open chat equals the room a creation notification appends |
| ChatExample.ChatCreated | examples/cpp/Chat/main.cpp:284-306 | a creation notification appends one open room without messages and keeps the others |
| ChatExample.ChatsRemoved | examples/cpp/Chat/main.cpp:308-329 | exactly the rooms whose ID is listed disappear |
| ChatExample.ChatsRemovedCompose | examples/cpp/Chat/main.cpp:308-329 | two removals in a row remove the union of their IDs |
| ChatExample.ChatsRemovedAppend | examples/cpp/Chat/main.cpp:308-329 | removal distributes over concatenation, so the surviving rooms keep their order |
| ChatExample.UpdateRoom | examples/cpp/Chat/main.cpp:161-171 | an update touches only the first room with the ID, and nothing when there is none |
| ChatExample.ChatClosed | examples/cpp/Chat/main.cpp:331-342 | closing marks the first room with that ID closed and changes no other room |
| ChatExample.HistoryDeleted | examples/cpp/Chat/main.cpp:438-449 | deleting history empties the messages of the first room with that ID and changes no other room |
| ChatExample.Receive | examples/cpp/Chat/main.cpp:344-372 | a reported message is merged into the first room with its chat ID through the add-or-replace-then-sort rule; other rooms and the room's ID and state are unchanged |
| ChatExample.ReceiveAll | examples/cpp/Chat/main.cpp:414-436 | receiving a batch never changes which rooms exist, their order or their state, and keeps a sorted room sorted; see also examples/cpp/Chat/main.cpp:344-372 |
| ChatExample.PendingRoom | examples/cpp/Chat/main.cpp:391-411 | the search finds the first room holding a placeholder for the request |
| ChatExample.SendFinished | examples/cpp/Chat/main.cpp:374-412 | a finished send patches the first placeholder for the request (new ID and time stamp, no longer waiting, failure recorded), re-sorts its room and changes no other room |
| ChatExample.WaitingUpdate | examples/cpp/Chat/main.cpp:391-411 | replacing one room changes the number of waiting placeholders by that room's difference |
| ChatExample.WaitingNone | examples/cpp/Chat/main.cpp:391-411 | when no room holds a placeholder for the request, none waits for it |
| ChatExample.SendFinishedSettles | examples/cpp/Chat/main.cpp:374-412 | a finished send settles exactly one waiting placeholder, and changes nothing when none waits |
| ChatExample.EarliestReal | examples/cpp/Chat/main.cpp:613-621 | the load anchor is absent exactly when every message is a placeholder |
| ChatExample.EarliestRealIsEarliest | examples/cpp/Chat/main.cpp:613-621 | in a sorted room no real message is older than the anchor |
| ChatExample.SendPlaceholder | examples/cpp/Chat/main.cpp:693-722 | with a selected room and a valid request ID a placeholder named after the request is merged into the selected room; otherwise nothing changes |
| ChatExample.SendPlaceholderWaits | examples/cpp/Chat/main.cpp:693-722 | after sending, the selected room holds a placeholder for the request with the typed text |
| ChatExample.SelectChatRoom | examples/cpp/Chat/main.cpp:641-655 | selecting swaps the first room with that ID into first place, a permutation of the rooms; an unknown ID changes nothing |
| ChatExample.SwapMultiset | examples/cpp/Chat/main.cpp:651 | the swap keeps the multiset of rooms |
| ChatExample.SelectChatRoomTwice | examples/cpp/Chat/main.cpp:641-655 | selecting the selected room again changes nothing |
| ChatExample.StatusChanged | examples/cpp/Chat/main.cpp:266-282 | Connected queues a LoadChats command, a lost or ended connection forgets every room, other statuses change nothing |
| ChatExample.LostConnectionForgets | examples/cpp/Chat/main.cpp:266-282 | after a lost or ended connection later messages and finished sends find no room and nothing can be selected |
| ChatMessages.Insert | examples/py/chat.py:129-130 | inserting a message adds exactly that message to the list's multiset |
| ChatMessages.Sort | examples/py/chat.py:129-130 | sorting by time stamp is a permutation of the list |
| ChatMessages.InsertSorted | examples/py/chat.py:129-130 | inserting into a sorted list keeps it sorted |
| ChatMessages.SortSorted | examples/cpp/Chat/main.cpp:143-150 | the result of sorting is ordered by time stamp |
| ChatMessages.AtTimeAppend | examples/py/chat.py:129-130 | the messages with a given time stamp of a concatenation are those of each part, in order |
| ChatMessages.AtTimeNone | examples/py/chat.py:129-130 | a list whose time stamps all exceed t has no message at t |
| ChatMessages.InsertAtTime | examples/py/chat.py:129-130 | insertion places the new message after every message with the same time stamp |
| ChatMessages.SortStable | examples/py/chat.py:129-130 | the sort is stable: for every time stamp the messages carrying it keep their relative order, as Python's list sort promises |
| ChatMessages.InsertLast | examples/py/chat.py:129-130 | a message no older than all others is inserted at the end |
| ChatMessages.SortOfSorted | examples/py/chat.py:129-130 | sorting an already sorted list changes nothing |
| ChatMessages.IdIndex | examples/py/chat.py:120 | the lookup finds the first message with the ID, or reports none |
| ChatMessages.ReplaceOrAppend | examples/cpp/Chat/main.cpp:123-138 | a message replaces the first message with its ID, or is appended when no message has that ID |
| ChatMessages.AddMessage | examples/cpp/Chat/main.cpp:123-141 | adding yields a sorted permutation of the replaced-or-appended list that contains the message and grows by at most one |
| ChatMessages.CountAppend | examples/cpp/Chat/main.cpp:123-141 | the number of messages matching a key is additive over concatenation |
| ChatMessages.CountInsert | examples/cpp/Chat/main.cpp:143-150 | inserting adds one match exactly when the inserted message matches |
| ChatMessages.CountSort | examples/cpp/Chat/main.cpp:143-150 | sorting keeps how many messages match any ID or request |
| ChatMessages.CountLast | examples/cpp/Chat/main.cpp:123-141 | the count splits off the last message |
| ChatMessages.CountUpdate | examples/cpp/Chat/main.cpp:135-138 | replacing one message changes the count by what the old and new messages contribute |
| ChatMessages.CountIdTwo | examples/cpp/Chat/main.cpp:125-129 | two positions with the same ID mean the ID is held at least twice |
| ChatMessages.CountAt | examples/cpp/Chat/main.cpp:125-129 | every message's ID is held at least once |
| ChatMessages.CountNone | examples/cpp/Chat/main.cpp:125-129 | a list where nothing matches has count zero |
| ChatMessages.CountIdReplace | examples/cpp/Chat/main.cpp:123-138 | after replace-or-append a message's ID is held exactly once, if it was held at most once before |
| ChatMessages.AddMessageIdempotent | examples/py/chat.py:119-127 | adding the same message twice equals adding it once, when its ID was held at most once |
| ChatMessages.AddMessageKeepsIdsUnique | examples/cpp/Chat/main.cpp:123-141 | adding a message to a list holding each ID at most once keeps it so, and the added ID is then held exactly once; rooms built by adding messages therefore meet the requirement of AddMessageIdempotent |
| ChatMessages.AddMessageCount | examples/cpp/Chat/main.cpp:123-141 | adding a message leaves the count of every other ID alone and holds its own ID exactly once |
| ChatMessages.ReplaceHeld | examples/cpp/Chat/main.cpp:123-141 | when the message is already held and is the only one with its ID, replacing by ID changes nothing |
| ChatMessages.PendingIndex | examples/cpp/Chat/main.cpp:391-396 | the lookup finds the first placeholder waiting for the request, or reports none |
| ChatMessages.Delivered | examples/cpp/Chat/main.cpp:398-403 | a patched placeholder keeps its content and sender |
| ChatMessages.PatchPending | examples/cpp/Chat/main.cpp:391-408 | the first placeholder for the request is replaced by its delivered form and the list re-sorted; a list without one is untouched |
| ChatMessages.PatchMultiset | examples/cpp/Chat/main.cpp:398-403 | patching one position swaps exactly that message in the multiset |
| ChatMessages.PendingIndexCount | examples/cpp/Chat/main.cpp:391-396 | a list holds a placeholder for a request exactly when some message waits for it |
| ChatMessages.PatchSettles | examples/cpp/Chat/main.cpp:391-408 | patching leaves one message fewer waiting for the request |
| ChatModule.ToApiEndpoint | TVAgentAPI/Library/internal/Chat/ChatModule.cpp:49-61 | a machine chat is reported as a machine endpoint and a session chat as an instant-support session |
| ChatModule.ToApiState | TVAgentAPI/Library/internal/Chat/ChatModule.cpp:63-75 | an open chat is reported open and a closed one closed |
| ChatModule.ToApiChat | TVAgentAPI/Library/internal/Chat/ChatModule.cpp:117-124 | the host sees the chat's ID, title and type ID unchanged |
| ChatModule.ConversionsInjective | TVAgentAPI/Library/internal/Chat/ChatModule.cpp:49-75 | distinct channel chats are reported as distinct chats |
| ChatModule.Allocated | TVAgentAPI/Library/internal/Chat/ChatModule.cpp:153-158 | the ID a send uses is never the invalid ID 0, and is the counter otherwise |
| ChatModule.Advance | TVAgentAPI/Library/internal/Chat/ChatModule.cpp:165 | the counter increments as a uint32_t, wrapping to 0 after 2^32 - 1 |
| ChatModule.Send | TVAgentAPI/Library/internal/Chat/ChatModule.cpp:133-168 | a send yields a valid ID exactly when both arguments are present, the connection lives and selection and send succeed; that ID is the counter with 0 skipped; only a successful send advances the counter and a failed one leaves the next ID unchanged; after a successful selection the chat is selected and then sent the caller's content under exactly that allocated ID, and a failed selection sends nothing more |
| ChatModule.SelectThen | TVAgentAPI/Library/internal/Chat/ChatModule.cpp:170-239 | load, delete-history and delete-chat fail without calls for a null ID or dead connection, make the action only after a successful selection, and return the action's result |
| ChatModule.Load | TVAgentAPI/Library/internal/Chat/ChatModule.cpp:170-193 | loading sends the count cast to uint32_t and an absent "before" ID as the empty string, after selecting the chat |
| ChatModule.RemoveHistory | TVAgentAPI/Library/internal/Chat/ChatModule.cpp:195-216 | the history is deleted only after a successful selection; the result is the deletion's |
| ChatModule.RemoveChat | TVAgentAPI/Library/internal/Chat/ChatModule.cpp:218-239 | the chat is deleted only after a successful selection; the result is the deletion's |
| ChatModule.ActionsSelectFirst | TVAgentAPI/Library/internal/Chat/ChatModule.cpp:133-239 | every operation on a named chat selects that chat first and then makes at most one further call |
| ChatModule.ObtainChatList | TVAgentAPI/Library/internal/Chat/ChatModule.cpp:95-131 | enumeration fails with nothing visited without an enumerator, a live connection or a successful fetch; otherwise the converted chats are visited in order until the enumerator declines one, and the result is true |
| ChatModule.ToSendFinished | TVAgentAPI/Library/internal/Chat/ChatModule.cpp:379-419 | a sent message reaches the host as Succeeded with its ID and time stamp, an unsent one as Failed with an empty ID and time 0, both under the local request ID |
| ChatModule.SendAllIds | TVAgentAPI/Library/internal/Chat/ChatModule.cpp:153-167 | over any sequence of sends the successful ones get consecutive IDs of the cycle 1 .. 2^32 - 1, and failed ones consume none |
| ChatModule.ModShift | TVAgentAPI/Library/internal/Chat/ChatModule.cpp:165 | a residue shifted by k equals the shifted residue |
| ChatModule.SendAllDistinct | TVAgentAPI/Library/internal/Chat/ChatModule.cpp:153-167 | fewer than 2^32 successful sends never reuse a request ID and never return the invalid ID |
| ChatModule.SendAllLength | TVAgentAPI/Library/internal/Chat/ChatModule.cpp:133-168 | no more IDs are returned than sends attempted |
| ChatModule.ModDistinct | TVAgentAPI/Library/internal/Chat/ChatModule.cpp:165 | positions less than a full cycle apart have distinct residues |
| ChatService.ChatCreated | CommunicationLayer/src/ChatService/Library/internal/Client/ChatOutServiceClient.cpp:38-90 | an unlisted chat type is refused as invalid input with nothing sent, before any other check; otherwise the request goes out exactly for a started client, a non-empty comId and a non-empty chat ID, carrying the chat's fields |
| ChatService.ChatTypeCheckedFirst | CommunicationLayer/src/ChatService/Library/internal/Client/ChatOutServiceClient.cpp:50-58 | a bad chat type is reported as invalid input even by a client that was never started, which otherwise reports the missing start |
| ChatService.ChatsRemoved | CommunicationLayer/src/ChatService/Library/internal/Client/ChatOutServiceClient.cpp:92-132 | the removal is sent exactly for a started client, a non-empty comId and no empty chat ID, carrying the IDs |
| ChatService.ReceivedMessages | CommunicationLayer/src/ChatService/Library/internal/Client/ChatOutServiceClient.cpp:134-182 | messages are sent exactly for a started client, a non-empty comId and messages that all have an ID, content and a non-zero time stamp |
| ChatService.MessageSent | CommunicationLayer/src/ChatService/Library/internal/Client/ChatOutServiceClient.cpp:184-213 | the confirmation is sent exactly for a started client and a non-empty comId, carrying local ID, message ID and time stamp |
| ChatService.MessageNotSent | CommunicationLayer/src/ChatService/Library/internal/Client/ChatOutServiceClient.cpp:215-238 | the failure is sent exactly for a started client and a non-empty comId, carrying the local ID |
| ChatService.DeletedHistory | CommunicationLayer/src/ChatService/Library/internal/Client/ChatOutServiceClient.cpp:288-311 | the notification is sent exactly for a started client and a non-empty comId |
| ChatService.ClosedChat | CommunicationLayer/src/ChatService/Library/internal/Client/ChatOutServiceClient.cpp:313-336 | the notification is sent exactly for a started client and a non-empty comId |
| ChatService.LoadedMessages | CommunicationLayer/src/ChatService/Library/internal/Client/ChatOutServiceClient.cpp:240-286 | incomplete messages are refused as invalid input before anything else; otherwise the messages go out exactly for a started client and a non-empty comId |
| ChatService.MessageCallsAgree | CommunicationLayer/src/ChatService/Library/internal/Client/ChatOutServiceClient.cpp:134-286 | the two message-carrying calls accept the same inputs with the same status |
| ChatService.SelectChat | CommunicationLayer/src/ChatService/Library/internal/Client/ChatInServiceClient.cpp:120-143 | the selection is sent exactly for a started client and a non-empty comId |
| ChatService.SendMessage | CommunicationLayer/src/ChatService/Library/internal/Client/ChatInServiceClient.cpp:145-171 | the message is sent exactly for a started client and a non-empty comId, carrying the local ID and content |
| ChatService.DeleteHistory | CommunicationLayer/src/ChatService/Library/internal/Client/ChatInServiceClient.cpp:206-224 | the request is sent exactly for a started client and a non-empty comId |
| ChatService.DeleteChat | CommunicationLayer/src/ChatService/Library/internal/Client/ChatInServiceClient.cpp:226-244 | the request is sent exactly for a started client and a non-empty comId |
| ChatService.LoadMessages | CommunicationLayer/src/ChatService/Library/internal/Client/ChatInServiceClient.cpp:173-204 | the request is sent exactly for a started client, a non-empty comId and a non-zero count; a zero count is invalid input |
| ChatService.TypeFromWire | CommunicationLayer/src/ChatService/Library/internal/Client/ChatInServiceClient.cpp:75-87 | only the two listed wire chat types decode, each to its counterpart |
| ChatService.StateFromWire | CommunicationLayer/src/ChatService/Library/internal/Client/ChatInServiceClient.cpp:91-103 | only the two listed wire chat states decode, each to its counterpart |
| ChatService.DecodeChat | CommunicationLayer/src/ChatService/Library/internal/Client/ChatInServiceClient.cpp:66-105 | an entry decodes exactly when its type and state are listed, keeping ID, title and type ID |
| ChatService.DecodeChats | CommunicationLayer/src/ChatService/Library/internal/Client/ChatInServiceClient.cpp:66-106 | a response decodes exactly when every entry does, entry by entry in order |
| ChatService.HandleObtainChatsAsWritten | CommunicationLayer/src/ChatService/Library/internal/Client/ChatInServiceClient.cpp:58-114 | as written the state is Ok exactly when the call succeeded, even when an entry does not decode; then no chats are returned and the message is InvalidResponseValue |
| ChatService.HandleObtainChats | CommunicationLayer/src/ChatService/Library/internal/Client/ChatInServiceClient.cpp:58-114 | corrected: Ok exactly when the call succeeded and every entry decodes, then with every chat in order; otherwise no chats and the call's or the decoding error |
| ChatService.ObtainChatsWith | CommunicationLayer/src/ChatService/Library/internal/Client/ChatInServiceClient.cpp:38-118 | the request goes out exactly for a started client and a non-empty comId; without it the response is not Ok and holds no chats |
| ChatService.ObtainChatsAsWritten | CommunicationLayer/src/ChatService/Library/internal/Client/ChatInServiceClient.cpp:38-118 | as written the response is Ok exactly when the request went out and the call succeeded |
| ChatService.ObtainChats | CommunicationLayer/src/ChatService/Library/internal/Client/ChatInServiceClient.cpp:38-118 | corrected: Ok exactly when the request went out, the call succeeded and every entry decodes, then carrying every decoded chat |
| ChatService.UndecodableReportedOk | CommunicationLayer/src/ChatService/Library/internal/Client/ChatInServiceClient.cpp:64-86 | a response with one entry of unlisted type is reported Ok with no chats by the as-written handler and not Ok by the corrected one |
| ChatService.HandlersAgreeOnDecodable | CommunicationLayer/src/ChatService/Library/internal/Client/ChatInServiceClient.cpp:58-114 | both handlers agree whenever every entry decodes |
| ChatService.DecodeChatsAppend | CommunicationLayer/src/ChatService/Library/internal/Client/ChatInServiceClient.cpp:66-106 | decoding a concatenated response decodes its parts |
| ChatService.DecodableAppend | CommunicationLayer/src/ChatService/Library/internal/Client/ChatInServiceClient.cpp:66-106 | a concatenated response decodes exactly when both of its parts do |
| ServiceBase.StartClient | CommunicationLayer/src/ServiceBase/Library/export/TVRemoteScreenSDKCommunication/ServiceBase/AbstractServiceClient.h:60-67 | a started client holds a channel for the destination it was given |
| ServiceBase.StopClient | CommunicationLayer/src/ServiceBase/Library/export/TVRemoteScreenSDKCommunication/ServiceBase/AbstractServiceClient.h:69-73 | a stopped client holds no channel and keeps its destination |
| ServiceBase.HandleResponse | CommunicationLayer/src/ServiceBase/Library/export/TVRemoteScreenSDKCommunication/ServiceBase/AbstractServiceClient.h:114-121 | a call is Ok exactly when the transport succeeded, and otherwise carries the transport's message |
| ServiceBase.ClientCall | CommunicationLayer/src/ServiceBase/Library/export/TVRemoteScreenSDKCommunication/ServiceBase/AbstractServiceClient.h:124-158 | a request is sent exactly for a started client and valid input; an unstarted client reports the missing start before validation is looked at, and invalid input reports invalid input |
| ServiceBase.DefaultCall | CommunicationLayer/src/ServiceBase/Library/export/TVRemoteScreenSDKCommunication/ServiceBase/AbstractServiceClient.h:88-158 | with the default handling, an Ok result implies the request was sent and the transport succeeded |
| ServiceBase.StoppedClientSendsNothing | CommunicationLayer/src/ServiceBase/Library/export/TVRemoteScreenSDKCommunication/ServiceBase/AbstractServiceClient.h:69-73 | a stopped or never-started client sends nothing and reports the missing start, whatever the call |
| ServiceBase.StartedClientSends | CommunicationLayer/src/ServiceBase/Library/export/TVRemoteScreenSDKCommunication/ServiceBase/AbstractServiceClient.h:60-158 | a started client sends every valid request and returns the remote answer's status, and refuses invalid input |
| ServiceBase.StartServer | CommunicationLayer/src/ServiceBase/Library/export/TVRemoteScreenSDKCommunication/ServiceBase/AbstractServiceServer.h:146-159 | starting reports whether the server could be created, and the server runs exactly then, at the given location |
| ServiceBase.StopServer | CommunicationLayer/src/ServiceBase/Library/export/TVRemoteScreenSDKCommunication/ServiceBase/AbstractServiceServer.h:161-168 | a stopped server does not run and keeps its location |
| ServiceBase.StopServerIdempotent | CommunicationLayer/src/ServiceBase/Library/export/TVRemoteScreenSDKCommunication/ServiceBase/AbstractServiceServer.h:161-168 | stopping twice is the same as stopping once, and start-then-stop leaves the server stopped |
| ServiceBase.SetCallback | CommunicationLayer/src/ServiceBase/Library/export/TVRemoteScreenSDKCommunication/ServiceBase/AbstractServiceServer.h:232-236 | installing a callback changes only its own slot |
| ServiceBase.ResponseStatus | CommunicationLayer/src/ServiceBase/Library/export/TVRemoteScreenSDKCommunication/ServiceBase/AbstractServiceServer.h:115-130 | a callback's Ok becomes the transport's OK and a failure becomes ABORTED with the callback's message |
| ServiceBase.ServerCall | CommunicationLayer/src/ServiceBase/Library/export/TVRemoteScreenSDKCommunication/ServiceBase/AbstractServiceServer.h:181-230 | the callback is invoked exactly when the arguments are present, a callback is installed, validation passes and the client sent a comId; each earlier failure returns its own status |
| ServiceBase.ServerCallOutcome | CommunicationLayer/src/ServiceBase/Library/export/TVRemoteScreenSDKCommunication/ServiceBase/AbstractServiceServer.h:217-229 | a served call succeeds exactly when the callback was reached and reported success; a callback that never reports leaves the call cancelled |
| ServiceBase.InstalledCallbackReached | CommunicationLayer/src/ServiceBase/Library/export/TVRemoteScreenSDKCommunication/ServiceBase/AbstractServiceServer.h:192-236 | an installed callback is reached by a valid call, and an emptied slot answers UNAVAILABLE |
| ServiceBase.CallbackReportReachesClient | CommunicationLayer/src/ServiceBase/Library/export/TVRemoteScreenSDKCommunication/ServiceBase/AbstractServiceServer.h:115-130 | end to end, the client's default handling returns the state the server's callback reported, and its message on failure |
| CommunicationAdapter.FeatureToCom | TVQtRC/Library/internal/Communication/CommunicationAdapter.cpp:134-152 | a Qt feature converts exactly when it is one of the four listed features, and to a listed one |
| CommunicationAdapter.FeatureFromCom | TVQtRC/Library/internal/Communication/CommunicationAdapter.cpp:334-352 | a channel feature converts exactly when it is listed, and to a listed one |
| CommunicationAdapter.FeatureRoundTrip | TVQtRC/Library/internal/Communication/CommunicationAdapter.cpp:134-352 | the two feature conversions are inverse bijections between the four listed features of each layer |
| CommunicationAdapter.AccessToCom | TVQtRC/Library/internal/Communication/CommunicationAdapter.cpp:154-169 | a Qt access level converts exactly when it is listed |
| CommunicationAdapter.AccessFromCom | TVQtRC/Library/internal/Communication/CommunicationAdapter.cpp:317-332 | a channel access level converts exactly when it is listed |
| CommunicationAdapter.AccessRoundTrip | TVQtRC/Library/internal/Communication/CommunicationAdapter.cpp:154-332 | the two access conversions are inverse on the listed levels |
| CommunicationAdapter.SendGetAccessMode | TVQtRC/Library/internal/Communication/CommunicationAdapter.cpp:881-895 | an unlisted feature fails with no call; otherwise the channel is asked for the converted feature, the result is true exactly when the channel succeeded and its answer converts, and the output is overwritten with the converted answer whenever that answer is listed, whatever the channel returned, and kept otherwise |
| CommunicationAdapter.GetAccessModeWritesOnFailure | TVQtRC/Library/internal/Communication/CommunicationAdapter.cpp:891-892 | when the channel call fails but its answer converts, the result is false and the caller's variable still receives the converted answer |
| CommunicationAdapter.SendSetAccessMode | TVQtRC/Library/internal/Communication/CommunicationAdapter.cpp:897-908 | the channel is called exactly when both values convert, and the result is its answer |
| CommunicationAdapter.SetAccessModeFaithful | TVQtRC/Library/internal/Communication/CommunicationAdapter.cpp:897-908 | the call the channel receives converts back to the caller's feature and access |
| CommunicationAdapter.SendAccessConfirmationReply | TVQtRC/Library/internal/Communication/CommunicationAdapter.cpp:910-920 | the reply is sent exactly for a listed feature, with the caller's confirmation, and the result is the channel's answer |
| CommunicationAdapter.OnAccessConfirmationRequested | TVQtRC/Library/internal/Communication/CommunicationAdapter.cpp:458-472 | a confirmation request is signalled exactly when its feature converts, with the timeout passed on |
| CommunicationAdapter.OnAccessModeChange | TVQtRC/Library/internal/Communication/CommunicationAdapter.cpp:473-488 | an access change is signalled exactly when both values convert, carrying them back |
| CommunicationAdapter.ColorFormatToCom | TVQtRC/Library/internal/Communication/CommunicationAdapter.cpp:96-107 | only Unsupported and unlisted Qt colour formats become the image service's Unknown |
| CommunicationAdapter.ColorFormatsDistinct | TVQtRC/Library/internal/Communication/CommunicationAdapter.cpp:96-107 | the three pixel formats keep their identity across the layers |
| CommunicationAdapter.GrabStrategyFromCom | TVQtRC/Library/internal/Communication/CommunicationAdapter.cpp:109-120 | only the two listed grabbing strategies enable grabbing; Unknown and unlisted ones mean no grabbing |
| CommunicationAdapter.GrabStrategyToCom | TVQtRC/Library/internal/Communication/CommunicationAdapter.cpp:109-120 | every Qt strategy stands for a listed, known agent strategy |
| CommunicationAdapter.GrabStrategyRoundTrip | TVQtRC/Library/internal/Communication/CommunicationAdapter.cpp:109-120 | every Qt strategy is reached from exactly its own agent strategy |
| CommunicationAdapter.ControlModeToCom | TVQtRC/Library/internal/Communication/CommunicationAdapter.cpp:122-132 | only an unlisted control mode becomes the service's Unknown mode |
| CommunicationAdapter.ControlModesDistinct | TVQtRC/Library/internal/Communication/CommunicationAdapter.cpp:122-132 | distinct listed control modes reach the service as distinct modes |
| CommunicationAdapter.ConfirmationToCom | TVQtRC/Library/internal/Communication/CommunicationAdapter.cpp:171-188 | a user confirmation converts exactly when it is listed |
| CommunicationAdapter.ConnectionTypeToCom | TVQtRC/Library/internal/Communication/CommunicationAdapter.cpp:190-204 | a connection type converts exactly when it is listed |
| CommunicationAdapter.ConfirmConnectionRequest | TVQtRC/Library/internal/Communication/CommunicationAdapter.cpp:846-867 | the channel is called exactly when confirmation and connection type both convert, and the result is its answer |
| CommunicationAdapter.ConfirmCallsDistinct | TVQtRC/Library/internal/Communication/CommunicationAdapter.cpp:846-867 | distinct requests reach the channel as distinct calls |
| CommunicationAdapter.ViewGeometryResult | TVQtRC/Library/internal/Communication/CommunicationAdapter.cpp:206-226 | an unlisted geometry result is reported as CallError |
| CommunicationAdapter.ViewGeometryResultToCom | TVQtRC/Library/internal/Communication/CommunicationAdapter.cpp:206-226 | every Qt geometry result stands for a listed agent result |
| CommunicationAdapter.ViewGeometryRoundTrip | TVQtRC/Library/internal/Communication/CommunicationAdapter.cpp:973-1023 | the geometry result conversion is a bijection on the listed results |
| CommunicationAdapter.ConvertParseResultAsWritten | TVQtRC/Library/internal/Communication/CommunicationAdapter.cpp:228-247 | as written the conversion fails exactly for ConnectionIsInUse (the case lacks its return true) |
| CommunicationAdapter.ConvertParseResult | TVQtRC/Library/internal/Communication/CommunicationAdapter.cpp:228-247 | corrected, every parse-result code converts |
| CommunicationAdapter.ReportAsWritten | TVQtRC/Library/internal/Communication/CommunicationAdapter.cpp:228-247 | as written the URL setters never report ConnectionIsInUse: a channel in use is reported as SchemaNotValid, every other code as the corrected report gives it |
| CommunicationAdapter.Report | TVQtRC/Library/internal/Communication/CommunicationAdapter.cpp:228-247 | corrected, every channel code is reported as the plugin code of the same name |
| CommunicationAdapter.InUseReportedAsMalformed | TVQtRC/Library/internal/Communication/CommunicationAdapter.cpp:228-247 | as written, a channel in use is reported as SchemaNotValid, and every other code is reported faithfully |
| CommunicationAdapter.ReportFaithful | TVQtRC/Library/internal/Communication/CommunicationAdapter.cpp:228-247 | corrected, distinct channel codes are reported distinctly and in-use is reported as in use |
| CommunicationAdapter.SetBaseUrlCheckedAsWritten | TVQtRC/Library/internal/Communication/CommunicationAdapter.cpp:762-783 | an invalid QUrl is refused as SchemaNotValid without touching the channel |
| CommunicationAdapter.SetBaseUrlChecked | TVQtRC/Library/internal/Communication/CommunicationAdapter.cpp:762-783 | an invalid QUrl is refused without touching the channel; a valid one updates the channel as its checked setter does |
| CommunicationAdapter.SetUrlsAsWritten | TVQtRC/Library/internal/Communication/CommunicationAdapter.cpp:785-817 | either invalid QUrl is refused as SchemaNotValid without touching the channel |
| CommunicationAdapter.SetUrls | TVQtRC/Library/internal/Communication/CommunicationAdapter.cpp:785-817 | either invalid QUrl is refused without touching the channel; otherwise the channel is updated as its setUrls does |
| CommunicationAdapter.RunningChannelMisreported | TVQtRC/Library/internal/Communication/CommunicationAdapter.cpp:785-817 | while the channel runs, the as-written adapter reports SchemaNotValid where the corrected one reports ConnectionIsInUse |
| CommunicationAdapter.RunningChannelMisreportedChecked | TVQtRC/Library/internal/Communication/CommunicationAdapter.cpp:762-783 | the same for the checked base-URL setter and any URL the channel can parse |
| CommunicationAdapter.SetUrlsVersionsAgree | TVQtRC/Library/internal/Communication/CommunicationAdapter.cpp:785-817 | apart from the in-use case both versions agree |
| CommunicationAdapter.Braced | TVQtRC/Library/internal/Communication/CommunicationAdapter.cpp:415-419 | a QUuid's text is its hyphenated form enclosed in braces |
| CommunicationAdapter.QUuidToString | TVQtRC/Library/internal/Communication/CommunicationAdapter.cpp:415-419 | the channel ID drops the first and last character of the QUuid text |
| CommunicationAdapter.QUuidToStringUnbraces | TVQtRC/Library/internal/Communication/CommunicationAdapter.cpp:415-419 | dropping the two ends undoes the bracing |
| CommunicationAdapter.LoadMessagesIdPassedThrough | TVQtRC/Library/internal/Communication/CommunicationAdapter.cpp:1051-1055 | a QUuid reaches the channel's loadMessages as its unbraced 36-character form, so the channel's empty-ID default is never used through the adapter |
| CommunicationAdapter.ChatTypeFromCom | TVQtRC/Library/internal/Communication/CommunicationAdapter.cpp:249-261 | a chat type converts exactly when it is listed |
| CommunicationAdapter.ChatStateFromCom | TVQtRC/Library/internal/Communication/CommunicationAdapter.cpp:263-275 | a chat state converts exactly when it is listed |
| CommunicationAdapter.ConvertChat | TVQtRC/Library/internal/Communication/CommunicationAdapter.cpp:277-294 | a converted chat keeps ID, title and type ID, and carries the converted type and state |
| CommunicationAdapter.ObtainChatsResult | TVQtRC/Library/internal/Communication/CommunicationAdapter.cpp:277-294 | the result has no more chats than the input |
| CommunicationAdapter.ObtainChatsAppend | TVQtRC/Library/internal/Communication/CommunicationAdapter.cpp:277-294 | the result of a concatenation is the concatenation of the results, so chats stay in order |
| CommunicationAdapter.ObtainChatsSingle | TVQtRC/Library/internal/Communication/CommunicationAdapter.cpp:277-294 | a single chat is kept, converted, exactly when its type and state convert |
| CommunicationAdapter.ObtainChatsMembers | TVQtRC/Library/internal/Communication/CommunicationAdapter.cpp:277-294 | a chat is in the result exactly when it is the conversion of a convertible input chat |
| CommunicationAdapter.ObtainChatsKeepsAll | TVQtRC/Library/internal/Communication/CommunicationAdapter.cpp:277-294 | when every chat converts nothing is dropped and order is kept |
| CommunicationAdapter.SendObtainChatsRequest | TVQtRC/Library/internal/Communication/CommunicationAdapter.cpp:1025-1038 | on success exactly the converted chats are appended to the caller's list, after its old entries; on failure it is left as it was; the result is the channel's |
| CommunicationAdapter.ObtainChatsEndToEnd | TVQtRC/Library/internal/Communication/CommunicationAdapter.cpp:1025-1038 | from the chat-in client's wire entries to the Qt list: the fetch succeeds exactly when the client is connected, the communication ID is set, the call succeeds and every entry decodes, and then the caller's list gains the conversions of the decoded entries in order; otherwise it is kept |
| CommunicationAdapter.OnChatCreated | TVQtRC/Library/internal/Communication/CommunicationAdapter.cpp:653-670 | a created chat is signalled exactly when its type converts, with ID, title and type ID unchanged |
| CommunicationAdapter.ErrorFromCom | TVQtRC/Library/internal/Communication/CommunicationAdapter.cpp:370-389 | unlisted instant-support error codes become InternalError |
| CommunicationAdapter.ErrorAgreesWithAgentApi | TVQtRC/Library/internal/Communication/CommunicationAdapter.cpp:370-389 | the Qt plugin and the agent API read every channel error code alike, and the listed codes map one-to-one |
| CommunicationAdapter.StateFromCom | TVQtRC/Library/internal/Communication/CommunicationAdapter.cpp:391-403 | an unlisted instant-support state becomes Undefined |
| CommunicationAdapter.StateAgreesWithAgentApi | TVQtRC/Library/internal/Communication/CommunicationAdapter.cpp:391-403 | the Qt plugin and the agent API read every instant-support state alike |
| CommunicationAdapter.DataFromCom | TVQtRC/Library/internal/Communication/CommunicationAdapter.cpp:405-413 | session data is copied with the state converted |
| CommunicationAdapter.OnKeyInput | TVQtRC/Library/internal/Communication/CommunicationAdapter.cpp:557-588 | Down and Up become a key command with the other arguments unchanged; Unknown and unlisted states produce none |
| CommunicationAdapter.ButtonFromCom | TVQtRC/Library/internal/Communication/CommunicationAdapter.cpp:354-368 | only Unknown and unlisted buttons read as Unknown |
| CommunicationAdapter.OnMouseMove | TVQtRC/Library/internal/Communication/CommunicationAdapter.cpp:589-602 | a move request becomes a move command at the given position |
| CommunicationAdapter.OnMouseWheel | TVQtRC/Library/internal/Communication/CommunicationAdapter.cpp:638-652 | a wheel request becomes a wheel command with position and angle |
| CommunicationAdapter.OnMousePressRelease | TVQtRC/Library/internal/Communication/CommunicationAdapter.cpp:603-637 | a press or release becomes a command exactly for a known button in a known state |
| CommunicationAdapter.MouseCommandsIdentifySource | TVQtRC/Library/internal/Communication/CommunicationAdapter.cpp:589-652 | the three mouse callbacks' commands are told apart by their action, and a press or release command gives back position, button and state |
| CommunicationChannel.ParseWithFramework | TVAgentAPIPrivate/Library/export/TVAgentAPIPrivate/CommunicationChannel.cpp:103-114 | a URL yields components exactly when it parses; they are valid and format back to a text that parses to them, and the transport is gRPC exactly for the scheme "unix" and the TCP socket transport exactly for "tcp+tv" and "tv+tcp" |
| CommunicationChannel.SetUrls | TVAgentAPIPrivate/Library/export/TVAgentAPIPrivate/CommunicationChannel.cpp:173-310 | a running channel answers ConnectionIsInUse and nothing else does; any failure leaves the channel unchanged; on success the stored server components are the parsed base URL and the stored transport is known and shared by the agent URL |
| CommunicationChannel.Verdict | TVAgentAPIPrivate/Library/export/TVAgentAPIPrivate/CommunicationChannel.cpp:196-303 | a verdict on two parsed URLs is never ConnectionIsInUse; Success requires a shared known transport, and for gRPC no host or port in either URL and fitting sockets, for TCP a path-less, port-less base and an agent URL with a port |
| CommunicationChannel.SetUrlsByParse | TVAgentAPIPrivate/Library/export/TVAgentAPIPrivate/CommunicationChannel.cpp:182-194 | an idle channel refuses an unparsable base or agent URL as SchemaNotValid, and otherwise answers the verdict on the two parses |
| CommunicationChannel.SetUrlsSucceeds | TVAgentAPIPrivate/Library/export/TVAgentAPIPrivate/CommunicationChannel.cpp:173-310 | an idle channel accepts exactly two URLs of the same transport that are either gRPC without host or port whose socket paths fit, or TCP with a path-less, port-less base and an agent URL carrying a port |
| CommunicationChannel.SetUrlsTooLong | TVAgentAPIPrivate/Library/export/TVAgentAPIPrivate/CommunicationChannel.cpp:246-263 | CharacterLimitForPathExceeded is reported exactly for well-shaped gRPC URLs where some server socket estimate reaches 107 characters |
| CommunicationChannel.SetUrlsRejectsSchema | TVAgentAPIPrivate/Library/export/TVAgentAPIPrivate/CommunicationChannel.cpp:181-307 | SchemaNotValid is reported exactly for an unparsable URL, mismatched or unknown transports, or a host, port or path where the transport forbids it |
| CommunicationChannel.AcceptedGrpcFacts | TVAgentAPIPrivate/Library/export/TVAgentAPIPrivate/CommunicationChannel.cpp:204-310 | after an accepted gRPC pair the stored server is the base URL's parse, has neither host nor port, and the base URL passed the socket length check |
| CommunicationChannel.GrpcBaseLength | TVAgentAPIPrivate/Library/export/TVAgentAPIPrivate/CommunicationChannel.cpp:248 | an accepted gRPC base URL is the scheme text "unix://" followed by its path, so its length is 7 plus the path length |
| CommunicationChannel.AcceptedGrpcPathShort | TVAgentAPIPrivate/Library/export/TVAgentAPIPrivate/CommunicationChannel.cpp:246-263 | after gRPC acceptance the base path plus a 32-character ID and the longest server location stays under 107 |
| CommunicationChannel.AcceptedSocketPathsFit | TVAgentAPIPrivate/Library/export/TVAgentAPIPrivate/CommunicationChannel.cpp:246-263 | after gRPC acceptance every server's socket path, built with a 32-character communication ID, is shorter than 107 characters |
| CommunicationChannel.AcceptedLocationsParse | TVAgentAPIPrivate/Library/export/TVAgentAPIPrivate/CommunicationChannel.cpp:303-307 | after acceptance the mediator built from the URLs yields, for every server, a location that parses back as a URL of the same transport |
| CommunicationChannel.AgentRegistrationUrl | TVAgentAPIPrivate/Library/export/TVAgentAPIPrivate/CommunicationChannel.cpp:156-168 | a registration URL is derived exactly for a known transport |
| CommunicationChannel.SetBaseUrlChecked | TVAgentAPIPrivate/Library/export/TVAgentAPIPrivate/CommunicationChannel.cpp:147-171 | a non-Success outcome leaves the channel unchanged |
| CommunicationChannel.RegistrationPathShape | TVAgentAPIPrivate/Library/export/TVAgentAPIPrivate/CommunicationChannel.cpp:52 | the registration service path is a non-empty relative path of valid path characters with no doubled '/' |
| CommunicationChannel.JoinedPathParses | TVAgentAPIPrivate/Library/export/TVAgentAPIPrivate/CommunicationChannel.cpp:159-161 | joining the registration path under a base path without trailing '/' gives a URL that parses back to that joined path |
| CommunicationChannel.JoinedPathRejected | TVAgentAPIPrivate/Library/export/TVAgentAPIPrivate/CommunicationChannel.cpp:159-161 | under a base path ending in '/' the joined URL contains "//" and does not parse |
| CommunicationChannel.GrpcRegistrationParses | TVAgentAPIPrivate/Library/export/TVAgentAPIPrivate/CommunicationChannel.cpp:159-161 | the derived gRPC agent URL parses exactly when the base path has no trailing '/' |
| CommunicationChannel.TcpRegistrationParses | TVAgentAPIPrivate/Library/export/TVAgentAPIPrivate/CommunicationChannel.cpp:162-164 | the derived TCP agent URL parses to the base host with port 9221 and no path |
| CommunicationChannel.BaseUrlCheckedOutcomes | TVAgentAPIPrivate/Library/export/TVAgentAPIPrivate/CommunicationChannel.cpp:147-171 | the checked setter's outcome for every base URL: SchemaNotValid on parse failure or unknown transport, ConnectionIsInUse when running, otherwise the outcome of setUrls on the derived agent URL |
| CommunicationChannel.BaseUrlCheckedGrpc | TVAgentAPIPrivate/Library/export/TVAgentAPIPrivate/CommunicationChannel.cpp:147-171 | for an idle channel and a gRPC base URL the checked setter succeeds exactly when the URL has no host, port or trailing slash and its sockets fit, and reports the length error exactly when only the fit fails |
| CommunicationChannel.BaseUrlCheckedTcp | TVAgentAPIPrivate/Library/export/TVAgentAPIPrivate/CommunicationChannel.cpp:147-171 | for an idle channel and a TCP base URL the checked setter succeeds exactly when the URL carries neither path nor port |
| CommunicationChannel.GrpcBaseAccepted | TVAgentAPIPrivate/Library/export/TVAgentAPIPrivate/CommunicationChannel.cpp:147-171 | a well-shaped gRPC base URL whose sockets fit is accepted and handed to setUrls with the registration socket under its path |
| CommunicationChannel.ShortBaseFits | TVAgentAPIPrivate/Library/export/TVAgentAPIPrivate/CommunicationChannel.cpp:246-252 | any base URL of at most 56 characters passes the socket length check |
| CommunicationChannel.DefaultGrpcParses | TVAgentAPIPrivate/Library/export/TVAgentAPIPrivate/CommunicationChannel.cpp:56 | the gRPC default base URL parses to scheme unix and path /tmp |
| CommunicationChannel.DefaultGrpcValid | TVAgentAPIPrivate/Library/export/TVAgentAPIPrivate/CommunicationChannel.cpp:56 | the default's components are valid URL components |
| CommunicationChannel.DefaultGrpcAccepted | TVAgentAPIPrivate/Library/export/TVAgentAPIPrivate/CommunicationChannel.cpp:56 | an idle channel accepts the gRPC default base URL, with the agent URL under /tmp; see also lines 147-171 |
| CommunicationChannel.TcpBaseAccepted | TVAgentAPIPrivate/Library/export/TVAgentAPIPrivate/CommunicationChannel.cpp:147-171 | a path-less, port-less TCP base URL is accepted with the agent URL at the registration port |
| CommunicationChannel.RegistrationPortText | TVAgentAPIPrivate/Library/export/TVAgentAPIPrivate/CommunicationChannel.cpp:53 | the registration port's decimal text is "9221" |
| CommunicationChannel.DefaultTcpAccepted | TVAgentAPIPrivate/Library/export/TVAgentAPIPrivate/CommunicationChannel.cpp:59 | an idle channel accepts the TCP default base URL with the agent URL at port 9221 of the same host; see also lines 147-171 |
| CommunicationChannel.LoadMessagesLastId | TVAgentAPIPrivate/Library/export/TVAgentAPIPrivate/CommunicationChannel.cpp:910-934 | the ID sent is never empty: a given ID unchanged, an empty one replaced by a 36-character nil UUID of zeros and dashes |
| CommunicationChannel.SetupClientAndServer | TVAgentAPIPrivate/Library/export/TVAgentAPIPrivate/CommunicationChannel.cpp:1086-1145 | setup succeeds exactly when both connectivity steps do, whatever the optional steps do; a failure logs one line, a success at most one per optional step |
| CommunicationChannel.Failures | TVAgentAPIPrivate/Library/export/TVAgentAPIPrivate/CommunicationChannel.cpp:1133-1140 | the failing steps are exactly the listed steps whose setup fails |
| CommunicationChannel.Logged | TVAgentAPIPrivate/Library/export/TVAgentAPIPrivate/CommunicationChannel.cpp:1128 | one error line per failing step, the fixed prefix followed by the step's name; see also line 1138 |
| CommunicationChannel.RunSetups | TVAgentAPIPrivate/Library/export/TVAgentAPIPrivate/CommunicationChannel.cpp:1124-1142 | setup succeeds iff every mandatory step does; on failure exactly the first failing mandatory step is logged; on success one line per failing optional step |
| CommunicationChannel.SetupNeedsConnectivity | TVAgentAPIPrivate/Library/export/TVAgentAPIPrivate/CommunicationChannel.cpp:1092-1142 | the overall result depends only on the two connectivity steps, whatever the optional steps do |
| CommunicationChannel.TwoMandatory | TVAgentAPIPrivate/Library/export/TVAgentAPIPrivate/CommunicationChannel.cpp:1124-1142 | with two mandatory steps, setup succeeds iff both do, and a failure logs the first failing one alone |
| CommunicationChannel.SendObtainChatsRequest | TVAgentAPIPrivate/Library/export/TVAgentAPIPrivate/CommunicationChannel.cpp:844-868 | through the corrected chat-in client, from the agent's wire entries: the caller receives one chat per entry, decoded in order, exactly when a client is available and connected, the communication ID is set, the call succeeds and every entry decodes; otherwise it keeps its chats and the answer is false |
| CommunicationChannel.SendObtainChatsRequestAsWritten | TVAgentAPIPrivate/Library/export/TVAgentAPIPrivate/CommunicationChannel.cpp:844-868 | through the as-written client: success no longer depends on the entries, and a list with an undecodable entry replaces the caller's chats with an empty list |
| CommunicationChannel.UndecodableChatsLookEmpty | TVAgentAPIPrivate/Library/export/TVAgentAPIPrivate/CommunicationChannel.cpp:844-868 | with the as-written decoding a chat of an unlisted type reaches the caller as a successful, empty chat list; with the corrected decoding the call fails and the caller keeps its chats |
| Enumerate.VisitUntil | TVAgentAPI/Library/internal/TVSessionManagement/TVSessionManagementModule.cpp:98-104 | the enumerator callback sees a prefix of the items, every one but the last accepted, and the walk stops early only at an item the callback declined |
| Enumerate.VisitUntilUnique | TVAgentAPI/Library/internal/TVSessionManagement/TVSessionManagementModule.cpp:98-104 | any prefix with those properties is the one visited, so the visited prefix is determined by the callback's answers |
| Enumerate.VisitAll | TVAgentAPI/Library/internal/TVSessionManagement/TVSessionManagementModule.cpp:98-104 | a callback that accepts every item sees all of them, in order |
| Enumerate.FirstWhere | examples/cpp/Chat/main.cpp:125-127 | the position found is the first item satisfying the predicate, or the length when none does |
| ImageService.ChunkCount | CommunicationLayer/src/ImageService/Library/internal/Client/ImageServiceClient.cpp:71-76 | a picture is sent in the fewest chunks of 2 MiB that cover it, and in none when it is empty |
| ImageService.Chunk | CommunicationLayer/src/ImageService/Library/internal/Client/ImageServiceClient.cpp:91-99 | every chunk is non-empty and at most 2 MiB, and all but the last are exactly 2 MiB |
| ImageService.Message | CommunicationLayer/src/ImageService/Library/internal/Client/ImageServiceClient.cpp:80-101 | each message carries its chunk; only the first carries the chunk count and the dirty rectangle |
| ImageService.WriteChunks | CommunicationLayer/src/ImageService/Library/internal/Client/ImageServiceClient.cpp:78-107 | the messages written are the picture's messages in order, up to the first write the stream refuses |
| ImageService.UpdateImage | CommunicationLayer/src/ImageService/Library/internal/Client/ImageServiceClient.cpp:43-115 | a client that was not started or an empty communication ID fails without writing; otherwise the stream's messages are as above and the status is the one Finish returns |
| ImageService.Pictures | CommunicationLayer/src/ImageService/Library/internal/Server/ImageServiceServer.cpp:129-137 | an empty stream reassembles to no picture |
| ImageService.ServeUpdateImage | CommunicationLayer/src/ImageService/Library/internal/Server/ImageServiceServer.cpp:57-159 | the callback is reached only with arguments, a callback and a non-empty stream, with the caller's communication ID and the first message's rectangle; an empty stream is CANCELLED; a stream that runs short is ABORTED with "Reading chunks failed." |
| ImageService.ServeWhole | CommunicationLayer/src/ImageService/Library/internal/Server/ImageServiceServer.cpp:57-159 | a stream carrying a non-empty image as consecutively numbered chunks is reassembled into exactly that image, with the caller's communication ID and the rectangle, and the answer mirrors the callback's report |
| ImageService.ChunksPrefix | CommunicationLayer/src/ImageService/Library/internal/Client/ImageServiceClient.cpp:91-99 | the first k chunks appended are the picture's first k times 2 MiB characters; see also CommunicationLayer/src/ImageService/Library/internal/Server/ImageServiceServer.cpp:133-138 |
| ImageService.ChunksJoin | CommunicationLayer/src/ImageService/Library/internal/Client/ImageServiceClient.cpp:78-107 | all chunks appended are the picture; see also CommunicationLayer/src/ImageService/Library/internal/Server/ImageServiceServer.cpp:133-138 |
| ImageService.UpdateImageRoundTrip | CommunicationLayer/src/ImageService/Library/internal/Client/ImageServiceClient.cpp:43-115 | a non-empty picture the stream fully accepts reaches the server callback unchanged, with the sender's communication ID and rectangle, and the client's result carries the state the callback reported (a missing callback is a failure); see also CommunicationLayer/src/ImageService/Library/internal/Server/ImageServiceServer.cpp:57-159 |
| ImageService.EmptyPictureRefused | CommunicationLayer/src/ImageService/Library/internal/Client/ImageServiceClient.cpp:71-78 | an empty picture is sent as no messages, which the server answers with CANCELLED and no delivery; see also CommunicationLayer/src/ImageService/Library/internal/Server/ImageServiceServer.cpp:84-96 |
| ImageService.BrokenStreamAborts | CommunicationLayer/src/ImageService/Library/internal/Client/ImageServiceClient.cpp:103-106 | a stream that breaks after some but not all chunks is aborted and nothing is delivered; see also CommunicationLayer/src/ImageService/Library/internal/Server/ImageServiceServer.cpp:133-155 |
| ImageService.ColorFormatToWire | CommunicationLayer/src/ImageService/Library/internal/Client/ImageServiceClient.cpp:125-139 | every format is sent as a listed wire format, and as Unknown exactly for Unknown or an unlisted value |
| ImageService.ColorFormatFromWire | CommunicationLayer/src/ImageService/Library/internal/Server/ImageServiceServer.cpp:176-190 | every wire format arrives as a listed format, and as Unknown exactly for Unknown or an unlisted value |
| ImageService.ColorFormatRoundTrip | CommunicationLayer/src/ImageService/Library/internal/Client/ImageServiceClient.cpp:125-139 | a listed format survives the trip from client to server; an unlisted one arrives as Unknown; see also CommunicationLayer/src/ImageService/Library/internal/Server/ImageServiceServer.cpp:176-190 |
| InstantSupportModule.ErrorFromChannel | TVAgentAPI/Library/internal/InstantSupport/InstantSupportModule.cpp:47-60 | an error code outside the listed ones becomes InternalError |
| InstantSupportModule.ErrorToChannel | TVAgentAPI/Library/internal/InstantSupport/InstantSupportModule.cpp:47-60 | every API error code has a listed channel counterpart |
| InstantSupportModule.ErrorMapping | TVAgentAPI/Library/internal/InstantSupport/InstantSupportModule.cpp:47-60 | the error conversion is a bijection on the listed codes, and sends any unlisted code to InternalError |
| InstantSupportModule.StateFromChannel | TVAgentAPI/Library/internal/InstantSupport/InstantSupportModule.cpp:62-73 | a state outside the listed ones becomes Undefined |
| InstantSupportModule.StateToChannel | TVAgentAPI/Library/internal/InstantSupport/InstantSupportModule.cpp:62-73 | every API session state has a listed channel counterpart |
| InstantSupportModule.StateMapping | TVAgentAPI/Library/internal/InstantSupport/InstantSupportModule.cpp:62-73 | the state conversion is a bijection on the listed states |
| InstantSupportModule.RequestSupport | TVAgentAPI/Library/internal/InstantSupport/InstantSupportModule.cpp:114-137 | an expired connection returns false and makes no call; otherwise each argument is forwarded, a null one as the empty string, with the session code and email reaching the channel in its own order, and the result is the channel's |
| InstantSupportModule.Normalised | TVAgentAPI/Library/internal/InstantSupport/InstantSupportModule.cpp:131-136 | each argument is passed on unchanged, a null one as the empty string |
| InstantSupportModule.Confirm | TVAgentAPI/Library/internal/InstantSupport/InstantSupportModule.cpp:75-88 | an expired connection returns false and makes no call; otherwise an instant-support confirmation is sent and the result is the channel's; see also lines 210-226 |
| InstantSupportModule.ConfirmDistinguishes | TVAgentAPI/Library/internal/InstantSupport/InstantSupportModule.cpp:210-226 | accept, reject and timeout send Accepted, Denied and NoResponse, three distinct answers |
| InstantSupportModule.ToSessionData | TVAgentAPI/Library/internal/InstantSupport/InstantSupportModule.cpp:170-178 | the session data handed to the host keeps code, name and description, and converts the state |
| TVSessionManagementModule.EnumerateRunningSessions | TVAgentAPI/Library/internal/TVSessionManagement/TVSessionManagementModule.cpp:77-107 | succeeds iff an enumerator is given, the connection is alive and the session IDs could be fetched; the enumerator then sees the fetched IDs in order up to the first one it declines, and nothing on failure |
| TVSessionManagementModule.EnumerateAll | TVAgentAPI/Library/internal/TVSessionManagement/TVSessionManagementModule.cpp:98-104 | an enumerator that accepts everything sees every running session |
| TVSessionManagementModule.TerminateSessions | TVAgentAPI/Library/internal/TVSessionManagement/TVSessionManagementModule.cpp:109-119 | the stop request is sent iff the connection is alive, and the result is true iff it was sent and succeeded |
| TVSessionManagementModule.Forward | TVAgentAPI/Library/internal/TVSessionManagement/TVSessionManagementModule.cpp:138-162 | a channel start or stop event reaches the host as the same kind of event with the same session ID and count |
| SessionTracker.OnConnected | Bindings/Python/tests/tvagentapi_test/tv_session_management.py:50-54 | on connection the running IDs join the seeded set, whose size must equal the first expected count, and that count is recorded |
| SessionTracker.OnSessionEvent | Bindings/Python/tests/tvagentapi_test/tv_session_management.py:56-68 | a start is accepted iff its ID is new and the count rises by one, a stop iff its ID is known and the count falls by one; the ID set and the count change together, keeping their difference |
| SessionTracker.ApplyKeepsBalance | Bindings/Python/tests/tvagentapi_test/tv_session_management.py:56-68 | over any accepted run of events the set size minus the count is unchanged, one count is recorded per event and the last recorded count is the current one |
| SessionTracker.SeededBalance | Bindings/Python/tests/tvagentapi_test/tv_session_management.py:46-68 | after seeding and any accepted run of events, the set of running IDs is larger than the count by exactly the first expected count |
| Observer.NotifyAll | TVAgentAPIPrivate/Library/export/TVAgentAPIPrivate/Observer.h:111-119 | notifyAll reaches every registered callback, in registration order |
| Observer.Register | TVAgentAPIPrivate/Library/export/TVAgentAPIPrivate/Observer.h:93-109 | a callback is appended at the end of the list and its connection holds a fresh key |
| Observer.WithoutKey | TVAgentAPIPrivate/Library/export/TVAgentAPIPrivate/Observer.h:100-107 | tearing down a connection leaves no entry with its key |
| Observer.Teardown | TVAgentAPIPrivate/Library/export/TVAgentAPIPrivate/Observer.h:100-107 | teardown removes the connection's entry while the observer lives, and does nothing once it is gone |
| Observer.Disconnect | TVAgentAPIPrivate/Library/export/TVAgentAPIPrivate/Observer.h:45-52 | disconnect tears down a held connection once and leaves the connection empty |
| Observer.MoveAssign | TVAgentAPIPrivate/Library/export/TVAgentAPIPrivate/Observer.h:70-75 | move assignment disconnects the target first and then takes over the source's connection, leaving the source empty |
| Observer.Destroy | TVAgentAPIPrivate/Library/export/TVAgentAPIPrivate/Observer.h:85-87 | destroying the observer keeps nothing alive for later teardowns; see also line 128 |
| Observer.WithoutKeyAt | TVAgentAPIPrivate/Library/export/TVAgentAPIPrivate/Observer.h:100-107 | removing the key of entry i removes exactly that entry |
| Observer.WithoutKeyAbsent | TVAgentAPIPrivate/Library/export/TVAgentAPIPrivate/Observer.h:100-107 | removing a key no entry holds changes nothing |
| Observer.DisconnectRemovesOne | TVAgentAPIPrivate/Library/export/TVAgentAPIPrivate/Observer.h:45-52 | after disconnecting one connection, notifyAll reaches every other callback, in the same order; see also lines 111-119 |
| Observer.DisconnectIdempotent | TVAgentAPIPrivate/Library/export/TVAgentAPIPrivate/Observer.h:45-52 | disconnecting twice is the same as disconnecting once |
| Observer.DestroyedIgnoresTeardown | TVAgentAPIPrivate/Library/export/TVAgentAPIPrivate/Observer.h:100-107 | a connection outliving its observer disconnects harmlessly |
| Observer.ScenarioOneCallback | TVAgentAPIPrivate/Library/export/TVAgentAPIPrivate/Observer.h:93-119 | one registered callback is notified |
| Observer.ScenarioDisconnectMiddle | TVAgentAPIPrivate/Library/export/TVAgentAPIPrivate/Observer.h:45-52 | disconnecting the middle of three callbacks leaves the outer two in order; see also lines 93-119 |
| Observer.ScenarioReassign | TVAgentAPIPrivate/Library/export/TVAgentAPIPrivate/Observer.h:70-75 | move-assigning the third connection over the second drops the second callback and the target then holds the third key |
| Observer.ScenarioMove | TVAgentAPIPrivate/Library/export/TVAgentAPIPrivate/Observer.h:70-75 | moving the first connection onto the second drops the second callback only |
| PyChatExample.AfterFirstSpace | examples/py/chat.py:89-91 | the payload exists iff the input contains a space, and is everything after the first one |
| PyChatExample.ParseCommand | examples/py/chat.py:86-97 | any input not starting with '/' is a message carrying the whole input; an unknown command carries no payload |
| PyChatExample.ParseFromSlash | examples/py/chat.py:86-97 | the same holds from any point of the command list on |
| PyChatExample.CommandStringsPrefixFree | examples/py/chat.py:87-88 | no command string is a prefix of another, so at most one of them can match |
| PyChatExample.StartsWithUnique | examples/py/chat.py:87-88 | no input starts with two different command strings |
| PyChatExample.ParseFromMatched | examples/py/chat.py:87-92 | an input starting with a command string parses as that command with the text after its first space |
| PyChatExample.ParseFromUnmatched | examples/py/chat.py:94-97 | an input starting with no command string is a message or unknown |
| PyChatExample.ParseCommandSpec | examples/py/chat.py:86-97 | the parse names command i iff the input starts with command string i, and then its payload is the text after the first space |
| PyChatExample.ParseCommandRoundTrip | examples/py/chat.py:86-97 | a command string alone parses to that command without payload, and followed by a space and an argument parses to that command with the argument |
| PyChatExample.ParsersAgree | examples/py/chat.py:86-97 | where the C++ parser recognises a command, the Python parser finds the same command and the same argument; see also examples/cpp/Chat/main.cpp:451-477 |
| PyChatExample.ParsersDiffer | examples/py/chat.py:87-88 | the two parsers differ on inputs that merely start with a command: "/chatsX" is a command in Python and unknown in C++; see also examples/cpp/Chat/main.cpp:451-477 |
| PyChatExample.SuffixedCommand | examples/py/chat.py:86-92 | "/chatsX" is unknown to the C++ parser, while the Python prefix test reads it as the chat listing with no payload |
| PyChatExample.SpaceInsideArgument | examples/py/chat.py:86-92 | a select command glued to its argument still selects, and the payload is only what follows the first space: "/selectChatA B" selects "B" |
| PyChatExample.LoadRooms | examples/py/chat.py:333-348 | one room per obtained chat, in order, keeping its ID, title, endpoint ID, endpoint type and state, with no messages |
| PyChatExample.ChatCreated | examples/py/chat.py:186-196 | a new open room without messages is appended and the existing rooms are kept |
| PyChatExample.CreatedSlotsSwapped | examples/py/chat.py:111-115 | the same open chat, once created by notification and once loaded, ends up with its endpoint ID and type in exchanged slots; see also lines 189-194, lines 339-346 |
| PyChatExample.ChatCreatedCorrected | examples/py/chat.py:111-115 | the corrected creation stores the endpoint ID and type in their own slots; see also lines 189-194 |
| PyChatExample.CreatedMatchesLoaded | examples/py/chat.py:189-194 | with the corrected slots a created room equals the room loaded for the same open chat; see also lines 339-346 |
| PyChatExample.FindRoom | examples/py/chat.py:141-142 | the room found is the first with the ID, or none |
| PyChatExample.ChatsRemoved | examples/py/chat.py:199-205 | the rooms kept are exactly those whose ID is not in the removed list |
| PyChatExample.ChatsRemovedKeepsSelection | examples/py/chat.py:137-138 | the selected room stays selected when its ID is not removed; see also lines 199-205 |
| PyChatExample.UpdateRoom | examples/py/chat.py:141-142 | only the first room with the ID is changed; without one nothing changes |
| PyChatExample.ChatClosed | examples/py/chat.py:208-214 | as written, closing keeps every room's state: only a separate attribute of the found room is set |
| PyChatExample.ClosingDiffers | examples/py/chat.py:208-214 | the C++ example closes a room the Python example leaves open; see also examples/cpp/Chat/main.cpp:331-342 |
| PyChatExample.ChatClosedCorrected | examples/py/chat.py:208-214 | the corrected handler closes the room found and changes no other |
| PyChatExample.FromCppRooms | examples/cpp/Chat/main.cpp:185-219 | each C++ room maps to a Python room with the same ID and state; see also examples/py/chat.py:333-348 |
| PyChatExample.ClosingAgrees | examples/py/chat.py:208-214 | corrected, the Python example leaves every room in the same state as the C++ example; see also examples/cpp/Chat/main.cpp:331-342 |
| PyChatExample.HistoryDeleted | examples/py/chat.py:276-281 | the first room with the ID loses its messages and no other room changes |
| PyChatExample.Receive | examples/py/chat.py:217-237 | a received message is added to the first room with its chat ID, replacing a message with the same ID, and no other room changes; see also lines 119-127 |
| PyChatExample.Truthy | examples/py/chat.py:241 | a send result object is always truthy, whichever result it holds; see also line 255 |
| PyChatExample.PendingRoom | examples/py/chat.py:246-248 | the room patched is the first holding a message that waits for the request |
| PyChatExample.Patch | examples/py/chat.py:246-259 | only the first waiting message of that room is settled with the final ID and time stamp; without one nothing changes |
| PyChatExample.SendFinishedAsWritten | examples/py/chat.py:240-259 | as written, only the room holding the first message waiting for the request changes, and nothing changes when none waits |
| PyChatExample.SendFinished | examples/py/chat.py:240-259 | corrected, likewise only the room holding the first waiting message changes |
| PyChatExample.Settled | examples/py/chat.py:249-255 | the settled message takes the final ID, no longer waits, and is marked failed as given |
| PyChatExample.FailureNeverMarked | examples/py/chat.py:255 | as written, a failed send settles the message as not failed, exactly as a successful one |
| PyChatExample.FailureMarked | examples/py/chat.py:252-255 | corrected, the settled message is marked failed exactly when the send failed |
| PyChatExample.WaitingUpdate | examples/py/chat.py:246-248 | replacing one room changes the number of waiting messages by that room's difference |
| PyChatExample.WaitingNone | examples/py/chat.py:246-248 | with no room holding a waiting message, nothing waits |
| PyChatExample.SendFinishedSettles | examples/py/chat.py:246-259 | a send-finished callback settles exactly one waiting message, or changes nothing if none waits |
| PyChatExample.EarliestReal | examples/py/chat.py:357-358 | the anchor is a message that was not sent from here, or none when every message still carries a request ID |
| PyChatExample.SendPlaceholder | examples/py/chat.py:387-393 | a sent message adds a placeholder with the request ID as its ID to the selected room only |
| PyChatExample.PlaceholderNotReal | examples/py/chat.py:357-358 | a placeholder is never taken as the anchor for loading older messages; see also lines 387-393 |
| PyChatExample.SelectChatRoom | examples/py/chat.py:364-371 | an unknown chat ID changes nothing; a known one moves its room to the front and keeps all rooms |
| PyChatExample.SelectKeepsOthersInOrder | examples/py/chat.py:364-371 | selecting keeps the other rooms in their order, and selecting the same chat again changes nothing |
| QtAppModel.ToAppAccess | examples/Qt/AppModel.cpp:58-68 | every plugin access value becomes a listed app value, an unlisted one Denied |
| QtAppModel.ToPluginAccess | examples/Qt/AppModel.cpp:97-107 | every app access value becomes a listed plugin value, an unlisted one Denied |
| QtAppModel.ToPluginAccessControl | examples/Qt/AppModel.cpp:109-127 | a feature converts exactly when it is one of the three listed, and never to screen recording |
| QtAppModel.ConversionsRoundTrip | examples/Qt/AppModel.cpp:58-68 | access values and features convert back and forth without loss on the listed values, in both directions; see also lines 97-127, lines 231-246 |
| QtAppModel.Initial | examples/Qt/AppModel.cpp:164-171 | a fresh model has all three access modes Denied and no pending confirmation request; see also line 176 |
| QtAppModel.Lift | examples/Qt/AppModel.cpp:178-210 | chat effects are passed on one for one, in order |
| QtAppModel.OnAccessModeChanged | examples/Qt/AppModel.cpp:231-246 | a change for a listed feature updates that feature's mode only; any other feature changes nothing; the change signal is emitted in every case |
| QtAppModel.SetAccessMode | examples/Qt/AppModel.cpp:437-449 | the plugin is called iff there is one and the feature is listed, with the converted feature and access |
| QtAppModel.AccessRefreshedThroughPlugin | examples/Qt/AppModel.cpp:424-435 | getAccessMode discards its own result: the mode shown changes only through the plugin's change signal, to the value the channel reported, and stays when the channel fails; see also TVQtRC/Library/internal/TVQtRCPlugin.cpp:290-302 |
| QtAppModel.OnAccessConfirmationRequested | examples/Qt/AppModel.cpp:249-272 | the feature's request flag is raised and the request signal emitted for listed features only; the timer is (re)started with the timeout in milliseconds computed in 32 bits, and one more timeout connection is made |
| QtAppModel.TimerFires | examples/Qt/AppModel.cpp:268-271 | a running timer clears all three request flags and emits the request signal once per connection made so far; a stopped one does nothing; see also lines 392-398 |
| QtAppModel.AnswerRequest | examples/Qt/AppModel.cpp:575-630 | answering withdraws only its own request, stops the timer, and then replies to the plugin with the converted feature and the answer; without a plugin nothing happens |
| QtAppModel.AnswerCancelsTimeout | examples/Qt/AppModel.cpp:575-617 | after an answer the timeout does nothing, an answer never withdraws a remote-control request, and only the timeout does; see also lines 392-398 |
| QtAppModel.RepeatedRequestsRepeatTimeout | examples/Qt/AppModel.cpp:268-271 | two requests connect the timer twice, so one timeout emits the request signal twice |
| QtAppModel.OnCommunicationStatus | examples/Qt/AppModel.cpp:178-210 | on connection the three access modes are queried first and the chat is reconnected; every change ends with the running-changed signal and keeps pending requests |
| QtAppModel.DisconnectResets | examples/Qt/AppModel.cpp:197-209 | on disconnection all modes become Denied, the chat selection is cleared and its title reset, with the four signals in source order |
| QtSimulateAppModel.ToAppAccess | examples/Qt/qtsimulate/AppModel.cpp:58-68 | every listed plugin access value becomes a listed app value and only an unlisted one becomes Unknown |
| QtSimulateAppModel.ToPluginAccess | examples/Qt/qtsimulate/AppModel.cpp:99-110 | every app access value becomes a listed plugin value; Unknown and unlisted ones become Denied |
| QtSimulateAppModel.ToPluginAccessControl | examples/Qt/qtsimulate/AppModel.cpp:112-131 | an app feature converts exactly when it is listed |
| QtSimulateAppModel.ToAppAccessControl | examples/Qt/qtsimulate/AppModel.cpp:134-153 | a plugin feature converts exactly when it is listed |
| QtSimulateAppModel.ConversionsRoundTrip | examples/Qt/qtsimulate/AppModel.cpp:58-68 | the feature and access conversions are inverse on the listed values in both directions; see also lines 99-153 |
| QtSimulateAppModel.Initial | examples/Qt/qtsimulate/AppModel.cpp:190-194 | a fresh model knows no access mode, so every one reads Unknown, and is not listening for invitations |
| QtSimulateAppModel.GetAccessMode | examples/Qt/qtsimulate/AppModel.cpp:415-418 | a stored mode is returned as stored, a missing one as Unknown |
| QtSimulateAppModel.Lift | examples/Qt/qtsimulate/AppModel.cpp:201-232 | chat effects are passed on one for one, in order |
| QtSimulateAppModel.OnAccessModeChanged | examples/Qt/qtsimulate/AppModel.cpp:253-261 | a change for a listed feature stores the converted access for that feature only and signals that feature; an unlisted feature changes nothing and signals nothing |
| QtSimulateAppModel.UpdateAccessMode | examples/Qt/qtsimulate/AppModel.cpp:420-446 | a refresh changes only the refreshed feature's mode, keeps the chat, the plugin and the listening flag, and signals a change of that feature only |
| QtSimulateAppModel.UpdateAccessModeOutcome | examples/Qt/qtsimulate/AppModel.cpp:420-446 | a refresh succeeds only with a plugin, a listed feature, a working channel and a listed reported value; then the reported value is stored and the feature signalled once (by the plugin's synchronous change signal), and otherwise nothing changes; see also TVQtRC/Library/internal/TVQtRCPlugin.cpp:290-302 |
| QtSimulateAppModel.SetAccessMode | examples/Qt/qtsimulate/AppModel.cpp:399-413 | the plugin is called iff there is one and the feature is listed, with the converted feature and access |
| QtSimulateAppModel.OnAccessConfirmationRequested | examples/Qt/qtsimulate/AppModel.cpp:264-271 | a request for a listed feature is passed on with that feature and the timeout in milliseconds read as a signed 32-bit value; an unlisted one is dropped |
| QtSimulateAppModel.ReplyAccessControlRequest | examples/Qt/qtsimulate/AppModel.cpp:567-580 | the reply reaches the plugin iff there is one and the feature is listed, with the converted feature and the answer |
| QtSimulateAppModel.ConfirmationAnsweredForSameFeature | examples/Qt/qtsimulate/AppModel.cpp:264-271 | answering a passed-on request replies to the plugin for the same feature it asked about; see also lines 567-580 |
| QtSimulateAppModel.ResendListening | examples/Qt/qtsimulate/AppModel.cpp:750-763 | with a plugin, exactly the start or stop call matching the stored flag is made |
| QtSimulateAppModel.SetListening | examples/Qt/qtsimulate/AppModel.cpp:740-748 | the flag is stored; a change is forwarded to the plugin and signalled, and setting the same value does nothing |
| QtSimulateAppModel.ListeningToggle | examples/Qt/qtsimulate/AppModel.cpp:740-763 | setting the same value twice acts once; switching on and off makes a start call and a stop call, each followed by the change signal |
| QtSimulateAppModel.UpdateAccessModes | examples/Qt/qtsimulate/AppModel.cpp:206-209 | refreshing a list of features leaves every feature outside it, the chat, the plugin and the listening flag alone, and signals changes of listed features only |
| QtSimulateAppModel.UpdateAccessModesStore | examples/Qt/qtsimulate/AppModel.cpp:206-209 | refreshing a list of features stores each one's last reported value and leaves every other feature, the chat and the listening flag alone; see also lines 420-446 |
| QtSimulateAppModel.OnCommunicationStatus | examples/Qt/qtsimulate/AppModel.cpp:201-232 | every status change keeps the plugin and the listening flag and ends with the running-changed signal; a connection with a plugin re-sends the listening state just before it; a disconnection keeps the access modes |
| QtSimulateAppModel.DisconnectKeepsAccessModes | examples/Qt/qtsimulate/AppModel.cpp:224-230 | on disconnection the access modes and listening flag are kept, the chat selection is cleared and its title reset, with three signals in source order |
| QtSimulateAppModel.ConnectRefreshesAccessModes | examples/Qt/qtsimulate/AppModel.cpp:203-222 | on connection all four features are refreshed to the reported values and the listening state is re-sent just before the running-changed signal |
| QtSimulateAppModel.RefreshedModes | examples/Qt/qtsimulate/AppModel.cpp:206-209 | refreshing the four listed features stores each one's report and keeps the plugin and the listening state |
| QtSimulateAppModel.ConnectKeepsModes | examples/Qt/qtsimulate/AppModel.cpp:203-222 | connecting keeps the refreshed access modes and listening state and re-sends that listening state just before the final signal |
| QtAppShared.ControlModeOf | examples/Qt/AppModel.cpp:400-407 | the integer a QML caller passes names a listed control mode exactly when it is 0, 1 or 2; any other value is kept, as the cast keeps it |
| QtAppShared.ToModelControlMode | examples/Qt/AppModel.cpp:34-44 | every plugin control mode becomes a listed model mode, an unlisted one Disabled; see also examples/Qt/qtsimulate/AppModel.cpp:34-44 |
| QtAppShared.ToPluginControlMode | examples/Qt/AppModel.cpp:46-56 | every model control mode becomes a listed plugin mode, an unlisted one Disabled; see also examples/Qt/qtsimulate/AppModel.cpp:46-56 |
| QtAppShared.ShownControlMode | examples/Qt/AppModel.cpp:380-390 | without a plugin Disabled is shown; with one, the mode shown converts back to the plugin's current mode; see also examples/Qt/qtsimulate/AppModel.cpp:378-388 |
| QtAppShared.ControlModeRoundTrip | examples/Qt/AppModel.cpp:34-56 | the control-mode conversions are inverse on listed values in both directions, and an integer request maps 1 to ViewOnly, 2 to FullControl and everything else to Disabled |
| QtAppShared.RequestControlMode | examples/Qt/AppModel.cpp:400-407 | a request reaches the plugin iff there is one, as ViewOnly for 1, FullControl for 2 and Disabled otherwise; see also examples/Qt/qtsimulate/AppModel.cpp:390-397 |
| QtAppShared.Uint32ToInt | examples/Qt/AppModel.cpp:268 | a 32-bit unsigned value read as a signed int is the unique value in the signed range congruent to it; see also examples/Qt/qtsimulate/AppModel.cpp:269 |
| QtAppShared.SessionCodeToString | examples/Qt/AppModel.cpp:129-135 | a session code is shown as 's' followed by at least ten characters; see also examples/Qt/qtsimulate/AppModel.cpp:155-161 |
| QtAppShared.ParseSessionCode | examples/Qt/AppModel.cpp:129-135 | a string read back as a session code has the shape "s…-ddd-ddd" |
| QtAppShared.ThreeGroups | examples/Qt/AppModel.cpp:129-135 | splitting a code into millions, thousands and units loses nothing |
| QtAppShared.ParseGroups | examples/Qt/AppModel.cpp:129-135 | a string "s" + digits + "-" + three digits + "-" + three digits reads back as the number they spell |
| QtAppShared.SessionCodeRoundTrip | examples/Qt/AppModel.cpp:129-135 | every session code's text reads back as that code; see also examples/Qt/qtsimulate/AppModel.cpp:155-161 |
| QtAppShared.PaddedGroup | examples/Qt/AppModel.cpp:129-135 | a group printed in decimal and zero-padded is all digits, at least as wide as the padding, and reads back as the number |
| QtAppShared.SessionCodeInjective | examples/Qt/AppModel.cpp:129-135 | two codes with the same text are the same code |
| QtAppShared.SessionCodeShape | examples/Qt/AppModel.cpp:129-135 | a code below 10^8 is shown in exactly 11 characters, "sdd-ddd-ddd" |
| QtAppShared.ChatTypeIdText | examples/Qt/AppModel.cpp:148-160 | only a session chat shows its type ID, as a session code that reads back as that ID; see also examples/Qt/qtsimulate/AppModel.cpp:174-186 |
| QtAppShared.ChatTitle | examples/Qt/AppModel.cpp:655-656 | a chat title is the chat's own title, a space, and the session code text for session chats only; see also lines 747-749 |
| QtAppShared.InitialChatView | examples/Qt/AppModel.cpp:164-171 | a new model has no chat selected, the default title "Chat" and local message id 0 |
| QtAppShared.ChatCreated | examples/Qt/AppModel.cpp:645-660 | a created chat is always added as a contact; it is selected, titled and announced only when no chat is selected yet; see also examples/Qt/qtsimulate/AppModel.cpp:595-610 |
| QtAppShared.FirstCreatedChatStaysSelected | examples/Qt/AppModel.cpp:645-660 | once a chat is selected, later created chats do not change the selection |
| QtAppShared.SendChatMessage | examples/Qt/AppModel.cpp:632-643 | with a chat the message is shown as from "Me" and sent with the current local id, which then advances (mod 2^32) iff the chat accepted it; nothing else changes; see also examples/Qt/qtsimulate/AppModel.cpp:582-593 |
| QtAppShared.LocalIdCountsAcceptedSends | examples/Qt/AppModel.cpp:632-643 | after a run of sends the local id has advanced by the number the chat accepted, modulo 2^32 |
| QtAppShared.ReceivedMessages | examples/Qt/AppModel.cpp:670-679 | only messages of the selected chat are shown, never more than arrived; see also examples/Qt/qtsimulate/AppModel.cpp:620-629 |
| QtAppShared.SelectedChatFullyShown | examples/Qt/AppModel.cpp:670-679 | when every message belongs to the selected chat, each is shown, in order |
| QtAppShared.ReceivedMessagesAppend | examples/Qt/AppModel.cpp:670-679 | showing two batches is showing their concatenation |
| QtAppShared.InChatPrefix | examples/Qt/AppModel.cpp:694-719 | the prefix measured is the longest run of messages of the selected chat from the start |
| QtAppShared.LoadedMessages | examples/Qt/AppModel.cpp:694-719 | the loaded page is shown up to the first message of another chat, with "Me" for an empty sender, and the next page of 10 is requested from the last message only when the whole page was of the selected chat and more remain; see also examples/Qt/qtsimulate/AppModel.cpp:644-669 |
| QtAppShared.InChatPrefixIsFirstOther | examples/Qt/AppModel.cpp:694-719 | the measured prefix ends exactly at the first message of another chat |
| QtAppShared.ObtainChats | examples/Qt/AppModel.cpp:731-754 | all obtained chats become contacts, in order; the first one is returned with its title when there is a chat and at least one chat was obtained, otherwise a null ID and the current title; see also examples/Qt/qtsimulate/AppModel.cpp:681-704 |
| QtAppShared.SelectChat | examples/Qt/AppModel.cpp:756-764 | the selection changes and is announced only when there is a chat and it accepts the selection; see also examples/Qt/qtsimulate/AppModel.cpp:706-714 |
| QtAppShared.ChatDisconnected | examples/Qt/AppModel.cpp:204-207 | disconnection clears the selection and resets the title, keeping the local message id; see also examples/Qt/qtsimulate/AppModel.cpp:226-229 |
| QtAppShared.ConnectedSelectsFirstChat | examples/Qt/AppModel.cpp:186-195 | on connection the first obtained chat is selected, and is announced with the local id reset only when it is a real chat the chat object accepted; see also examples/Qt/qtsimulate/AppModel.cpp:211-220 |
| QtAppShared.DisconnectReenablesAutoSelect | examples/Qt/AppModel.cpp:204-207 | after disconnection the next created chat is selected again; see also lines 645-660 |
| ServicesMediator.Ordinal | TVAgentAPIPrivate/Library/internal/ServicesMediator.h:191 | every service type has an ordinal at most LastServiceType's, and only Unknown has ordinal 0; see also lines 412-420 |
| ServicesMediator.TypeAt | TVAgentAPIPrivate/Library/internal/ServicesMediator.h:412-432 | every ordinal up to the last names the type with that ordinal |
| ServicesMediator.OrdinalRoundTrip | TVAgentAPIPrivate/Library/internal/ServicesMediator.h:412-432 | ordinals and types correspond one to one |
| ServicesMediator.ServerLocationsPresent | TVAgentAPIPrivate/Library/internal/ServicesMediator.cpp:43-95 | exactly the eight server types have a gRPC socket location, a TCP port text and a port number |
| ServicesMediator.ServerLocationsDistinct | TVAgentAPIPrivate/Library/internal/ServicesMediator.cpp:43-95 | different servers get different socket locations and different ports |
| ServicesMediator.TcpLocationIsPort | TVAgentAPIPrivate/Library/internal/ServicesMediator.cpp:70-95 | each server's TCP location is the decimal text of a valid port |
| ServicesMediator.GrpcLocationShape | TVAgentAPIPrivate/Library/internal/ServicesMediator.cpp:43-68 | each gRPC location is a relative path of valid characters ending in '/', with no doubled '/', and at most 19 characters long |
| ServicesMediator.Create | TVAgentAPIPrivate/Library/internal/ServicesMediator.cpp:33-41 | a new mediator keeps the server components, transport and registration URL, and has no service information, communication ID, client or server |
| ServicesMediator.FullServerLocation | TVAgentAPIPrivate/Library/internal/ServicesMediator.cpp:97-117 | the full server location is empty exactly for an unknown transport |
| ServicesMediator.GrpcSocketPath | TVAgentAPIPrivate/Library/internal/ServicesMediator.cpp:104-107 | a gRPC server location is the scheme, "://" and a socket path made of the base path, a '/', the server's location and the communication ID |
| ServicesMediator.JoinPath | TVAgentAPIPrivate/Library/internal/ServicesMediator.cpp:104-107 | joining two valid paths without creating "//" gives a valid path |
| ServicesMediator.SocketPathValid | TVAgentAPIPrivate/Library/internal/ServicesMediator.cpp:104-107 | a base path without a trailing '/', a server location and a path-safe ID make a valid socket path |
| ServicesMediator.GrpcFullLocationParses | TVAgentAPIPrivate/Library/internal/ServicesMediator.cpp:97-117 | a gRPC server's full location parses back to the base scheme and the socket path, without host or port |
| ServicesMediator.ParseWithoutHost | TVAgentAPIPrivate/Library/internal/ServicesMediator.cpp:104-107 | a scheme with a valid path and no host parses back to exactly those components |
| ServicesMediator.LowerScheme | TVAgentAPIPrivate/Library/internal/ServicesMediator.cpp:99 | a valid scheme is already lower case, so parsing keeps it |
| ServicesMediator.ParseWithPort | TVAgentAPIPrivate/Library/internal/ServicesMediator.cpp:108-110 | a scheme, host and a valid port in decimal parse back to exactly those components |
| ServicesMediator.TcpFullLocationParses | TVAgentAPIPrivate/Library/internal/ServicesMediator.cpp:97-117 | a TCP server's full location parses back to the base scheme and host with the server's port |
| ServicesMediator.AgentServiceLocation | TVAgentAPIPrivate/Library/internal/ServicesMediator.h:298-318 | the registration service is found at the registration URL; any other service at the location of the first service information of its type, or nowhere |
| ServicesMediator.SetupClient | TVAgentAPIPrivate/Library/internal/ServicesMediator.h:321-363 | the client is present afterwards iff the transport is known and the agent named a location for it; nothing else changes |
| ServicesMediator.CreateAndStartServer | TVAgentAPIPrivate/Library/internal/ServicesMediator.h:261-296 | the server is present afterwards iff the transport is known and it started; nothing else changes |
| ServicesMediator.TeardownClient | TVAgentAPIPrivate/Library/internal/ServicesMediator.h:389-397 | the client is gone afterwards and nothing else changes |
| ServicesMediator.TeardownServer | TVAgentAPIPrivate/Library/internal/ServicesMediator.h:399-407 | the server is gone afterwards and nothing else changes |
| ServicesMediator.Pow2 | TVAgentAPIPrivate/Library/internal/ServicesMediator.h:424-425 | powers of two are positive |
| ServicesMediator.RunningServicesBitmask | TVAgentAPIPrivate/Library/internal/ServicesMediator.cpp:119-122 | the bitmask fits in 64 bits; see also TVAgentAPIPrivate/Library/internal/ServicesMediator.h:412-432 |
| ServicesMediator.PowMonotone | TVAgentAPIPrivate/Library/internal/ServicesMediator.h:424-425 | powers of two grow with the exponent |
| ServicesMediator.BitBelow | TVAgentAPIPrivate/Library/internal/ServicesMediator.h:424-425 | a number below 2^k has no bit at k or above |
| ServicesMediator.BitAddHigh | TVAgentAPIPrivate/Library/internal/ServicesMediator.h:424-425 | adding 2^k to a number below 2^k sets bit k and keeps the lower bits |
| ServicesMediator.FlagsBits | TVAgentAPIPrivate/Library/internal/ServicesMediator.h:412-432 | the flags collected down from type k have bit i set iff 1 <= i <= k and the service of ordinal i is running |
| ServicesMediator.BitmaskBits | TVAgentAPIPrivate/Library/internal/ServicesMediator.cpp:119-122 | bit n of the running-services bitmask is set iff the service of ordinal n is not Unknown and has a client or a server; no bit above the last type is ever set; see also TVAgentAPIPrivate/Library/internal/ServicesMediator.h:412-432 |
| ServicesMediator.CreatedIdle | TVAgentAPIPrivate/Library/internal/ServicesMediator.cpp:33-41 | a new mediator reports no running service; see also lines 119-122 |
| ServicesMediator.ZeroFlags | TVAgentAPIPrivate/Library/internal/ServicesMediator.h:412-432 | with no clients or servers every flag is clear |
| ServicesMediator.TeardownClearsOneBit | TVAgentAPIPrivate/Library/internal/ServicesMediator.h:389-407 | tearing down a service's client and server clears its bit and no other; see also lines 412-432 |
| ServicesMediator.SetupWithoutLocation | TVAgentAPIPrivate/Library/internal/ServicesMediator.h:298-363 | setting up a client the agent named no location for leaves the service running only if its server is, and a prior teardown makes no difference |
| TVQtRCPlugin.Shutdown | TVQtRC/Library/internal/TVQtRCPlugin.cpp:720-724 | shutting down remote control stops both grabbing and input simulation and touches nothing else |
| TVQtRCPlugin.ApplyControlMode | TVQtRC/Library/internal/TVQtRCPlugin.cpp:265-278 | Disabled stops everything; ViewOnly grabs without simulating input; FullControl grabs and simulates input when the simulator can start or already runs; an unlisted mode changes nothing; input is simulated only under FullControl; see also lines 699-718 |
| TVQtRCPlugin.SetControlMode | TVQtRC/Library/internal/TVQtRCPlugin.cpp:254-281 | setting the current mode does nothing; a new mode is sent to the agent, stored and signalled, and applied to remote control only while a session runs |
| TVQtRCPlugin.SetControlModeIdempotent | TVQtRC/Library/internal/TVQtRCPlugin.cpp:254-281 | setting the same mode twice acts once |
| TVQtRCPlugin.SetControlModes | TVQtRC/Library/internal/TVQtRCPlugin.cpp:254-281 | after a run of settings the last one is the mode, with at most two effects per setting |
| TVQtRCPlugin.TerminateSessions | TVQtRC/Library/internal/TVQtRCPlugin.cpp:365-373 | terminating stops remote control and the session, signals the stop and then sends the stop request, keeping the control mode and the communication state |
| TVQtRCPlugin.OnSessionStarted | TVQtRC/Library/internal/TVQtRCPlugin.cpp:462-490 | a start while a session runs does nothing; otherwise the session runs with the given grab strategy, the start is signalled, the current mode is sent and applied |
| TVQtRCPlugin.OnSessionStopped | TVQtRC/Library/internal/TVQtRCPlugin.cpp:492-503 | a stop without a session does nothing; otherwise remote control stops, the session ends and the stop is signalled |
| TVQtRCPlugin.SessionSignalsAlternate | TVQtRC/Library/internal/TVQtRCPlugin.cpp:462-503 | a second start or a second stop signals nothing, and a stop after a start signals once |
| TVQtRCPlugin.SessionEndStopsRemoteControl | TVQtRC/Library/internal/TVQtRCPlugin.cpp:365-373 | after termination, or a stop of a running session, no session runs and remote control is idle; see also lines 492-503 |
| TVQtRCPlugin.OnEstablishedCommunication | TVQtRC/Library/internal/TVQtRCPlugin.cpp:505-512 | communication is established afterwards, signalled only if it was not before, and remote control is untouched |
| TVQtRCPlugin.OnLostCommunication | TVQtRC/Library/internal/TVQtRCPlugin.cpp:514-523 | losing communication always stops remote control, and is signalled only if communication had been established |
| TVQtRCPlugin.CommunicationSignalOnChange | TVQtRC/Library/internal/TVQtRCPlugin.cpp:505-523 | the status signal is emitted exactly when the status changes, carrying the new status |
| TVQtRCPlugin.GetAccessMode | TVQtRC/Library/internal/TVQtRCPlugin.cpp:290-303 | an invalid feature fails without a call; the query succeeds iff the channel answers with a listed access value, and only then is that value returned and signalled |
| TVQtRCPlugin.SetAccessMode | TVQtRC/Library/internal/TVQtRCPlugin.cpp:305-312 | an invalid feature fails without a call; success means the converted feature and access were sent |
| TVQtRCPlugin.AccessConfirmationReply | TVQtRC/Library/internal/TVQtRCPlugin.cpp:314-323 | the reply is sent iff the feature is valid, with the caller's answer, and succeeds iff the channel accepts it |
| TVQtRCPlugin.OnAccessConfirmationRequest | TVQtRC/Library/internal/TVQtRCPlugin.cpp:415-421 | a confirmation request is passed on iff its feature is valid |
| TVQtRCPlugin.OnAccessModeChange | TVQtRC/Library/internal/TVQtRCPlugin.cpp:423-429 | an access mode change is passed on iff its feature is valid |
| TVQtRCPlugin.AccessNotificationEndToEnd | TVQtRC/Library/internal/TVQtRCPlugin.cpp:423-429 | a channel access-mode notification reaches the host iff its feature and access are listed, and then converts back to the values the channel sent; see also TVQtRC/Library/internal/Communication/CommunicationAdapter.cpp:473-488 |
| TVQtRCPlugin.RequestInstantSupportV2 | TVQtRC/Library/internal/TVQtRCPlugin.cpp:881-902 | a non-empty email in which the case-insensitive pattern finds no address is reported as InvalidEmail and nothing is sent; otherwise the request is sent with all fields and the result is the adapter's. The pattern's letters include the two non-ASCII letters that Unicode case folding maps onto `[A-Z]`, while `\b` stays ASCII |
| TVQtRCPlugin.RequestInstantSupport | TVQtRC/Library/internal/TVQtRCPlugin.cpp:871-879 | the old entry point sends the request with an empty email |
| TVQtRCPlugin.NoAtRefused | TVQtRC/Library/internal/TVQtRCPlugin.cpp:888-893 | an email without '@' is refused |
| TVQtRCPlugin.FoldedLettersExamples | TVQtRC/Library/internal/TVQtRCPlugin.cpp:889 | an address holding the Kelvin sign is sent; a long s ending the top-level domain leaves no word boundary, so that address is refused |
| TVQtRCPlugin.EmailExamples | TVQtRC/Library/internal/TVQtRCPlugin.cpp:888 | the pattern finds an address anywhere in the text and needs a top-level domain of at least two letters |
| TVQtRCPlugin.FeatureServices | TVQtRC/Library/internal/TVQtRCPlugin.cpp:943-962 | every listed feature depends on two distinct known services, and an unlisted one on none |
| TVQtRCPlugin.IsFeatureAvailable | TVQtRC/Library/internal/TVQtRCPlugin.cpp:932-965 | a feature is available iff it is listed and the bits of both its services are set |
| TVQtRCPlugin.FeatureAvailableIffRunning | TVQtRC/Library/internal/TVQtRCPlugin.cpp:932-965 | a listed feature is available iff both its services have a running client or server; see also TVAgentAPIPrivate/Library/internal/ServicesMediator.h:412-432 |
| TVQtRCPlugin.NothingRunningNothingAvailable | TVQtRC/Library/internal/TVQtRCPlugin.cpp:932-965 | with no service running no feature is available |
| Url.SplitScheme | CommunicationLayer/src/Test/main_TestParseUrl.cpp:39-40 | a successful split yields a valid scheme (a letter, then letters, digits, '+', '-', '.') followed by "://" and the rest of the URL; see also lines 62-69 |
| Url.SplitAuthority | CommunicationLayer/src/Test/main_TestParseUrl.cpp:45-59 | the authority and the path rebuild the text, the authority holds no '/', and the path is empty or starts with '/'; see also lines 82-83 |
| Url.ParseAuthority | CommunicationLayer/src/Test/main_TestParseUrl.cpp:45-59 | an accepted authority is a valid host with a port of at most 65535, written back as host and optional ":port"; see also lines 76-81 |
| Url.ParseUrl | CommunicationLayer/src/Test/main_TestParseUrl.cpp:38-86 | every parsed URL has a lower-case valid scheme, a valid host, a port of at most 65535 and a valid path |
| Url.GetTransportFramework | CommunicationLayer/src/Test/main_TestParseUrl.cpp:39-59 | "unix" and only "unix" selects gRPC; "tcp+tv" and "tv+tcp" and only they select the TCP socket transport; see also line 104 |
| Url.NoCharIn | CommunicationLayer/src/Test/main_TestParseUrl.cpp:82-85 | a text all of whose characters satisfy a class contains no character outside it |
| Url.SplitSchemeOf | CommunicationLayer/src/Test/main_TestParseUrl.cpp:39-59 | the scheme split finds exactly the valid scheme in front of "://" |
| Url.SplitAuthorityOf | CommunicationLayer/src/Test/main_TestParseUrl.cpp:45-59 | the authority split finds exactly a '/'-free authority in front of a rooted or empty path |
| Url.ParseAuthorityOf | CommunicationLayer/src/Test/main_TestParseUrl.cpp:45-58 | a valid host with a port in range, written canonically, parses back to that host and port |
| Url.ParseOf | CommunicationLayer/src/Test/main_TestParseUrl.cpp:39-59 | any valid components written behind a scheme in any letter case parse back to those components |
| Url.OverlongPortText | CommunicationLayer/src/Test/main_TestParseUrl.cpp:81 | a port of more than five digits is never valid |
| Url.PowMonotone | CommunicationLayer/src/Test/main_TestParseUrl.cpp:81 | powers of ten grow with the exponent, which bounds an overlong port from below |
| Url.ParseAuthorityRejects | CommunicationLayer/src/Test/main_TestParseUrl.cpp:76-81 | a host followed by ':' and an invalid port text (zero, a leading zero, a second colon, too large) is refused |
| Url.ParseRejects | CommunicationLayer/src/Test/main_TestParseUrl.cpp:70-85 | a URL whose authority or path is invalid is refused |
| Url.ParseFormat | CommunicationLayer/src/Test/main_TestParseUrl.cpp:93-101 | formatting valid components and parsing the text gives the same components back |
| Url.ParseStages | CommunicationLayer/src/Test/main_TestParseUrl.cpp:93-101 | a successful parse is exactly the composition of the scheme split, the authority split and the authority parse |
| Url.FormatParse | CommunicationLayer/src/Test/main_TestParseUrl.cpp:93-101 | formatting what a URL parsed to reproduces the URL up to the letter case of its scheme |
| UrlVectors.AcceptsWithoutPort | CommunicationLayer/src/Test/main_TestParseUrl.cpp:39-44 | a valid scheme in any case, a valid host and a valid path without a port parse to the lower-cased scheme, that host, port 0 and that path |
| UrlVectors.AcceptsWithPort | CommunicationLayer/src/Test/main_TestParseUrl.cpp:45-57 | the same with a port written in canonical decimal between 1 and 65535, which parses to its value |
| UrlVectors.Accepts01 | CommunicationLayer/src/Test/main_TestParseUrl.cpp:39 | `unix:///tmp` parses to the listed components and its scheme selects the listed transport |
| UrlVectors.Accepts02 | CommunicationLayer/src/Test/main_TestParseUrl.cpp:40 | `Unix:///tmp` parses to the listed components and its scheme selects the listed transport |
| UrlVectors.Accepts03 | CommunicationLayer/src/Test/main_TestParseUrl.cpp:41 | `UNIX:///tmp` parses to the listed components and its scheme selects the listed transport |
| UrlVectors.Accepts04 | CommunicationLayer/src/Test/main_TestParseUrl.cpp:42 | `unix:///Path/_SubDir/d.-2/` parses to the listed components and its scheme selects the listed transport |
| UrlVectors.Accepts05 | CommunicationLayer/src/Test/main_TestParseUrl.cpp:43 | `unix:///` parses to the listed components and its scheme selects the listed transport |
| UrlVectors.Accepts06 | CommunicationLayer/src/Test/main_TestParseUrl.cpp:44 | `foo:///path/to/file` parses to the listed components and its scheme selects the listed transport |
| UrlVectors.Accepts07 | CommunicationLayer/src/Test/main_TestParseUrl.cpp:45 | `http://localhost:80` parses to the listed components and its scheme selects the listed transport |
| UrlVectors.Accepts08 | CommunicationLayer/src/Test/main_TestParseUrl.cpp:46 | `http://localhost:80/` parses to the listed components and its scheme selects the listed transport |
| UrlVectors.Accepts09 | CommunicationLayer/src/Test/main_TestParseUrl.cpp:47 | `http://localhost:8000/path` parses to the listed components and its scheme selects the listed transport |
| UrlVectors.Accepts10 | CommunicationLayer/src/Test/main_TestParseUrl.cpp:48 | `http://localhost:8000/path/` parses to the listed components and its scheme selects the listed transport |
| UrlVectors.Accepts11 | CommunicationLayer/src/Test/main_TestParseUrl.cpp:49 | `http://localhost:8000/path/subpath` parses to the listed components and its scheme selects the listed transport |
| UrlVectors.Accepts12 | CommunicationLayer/src/Test/main_TestParseUrl.cpp:50 | `https://example.com:433/path/subpath` parses to the listed components and its scheme selects the listed transport |
| UrlVectors.Accepts13 | CommunicationLayer/src/Test/main_TestParseUrl.cpp:51 | `ftp://host.example.com:21/path_1/_2` parses to the listed components and its scheme selects the listed transport |
| UrlVectors.Accepts14 | CommunicationLayer/src/Test/main_TestParseUrl.cpp:52 | `tcp://localhost:12345` parses to the listed components and its scheme selects the listed transport |
| UrlVectors.Accepts15 | CommunicationLayer/src/Test/main_TestParseUrl.cpp:53 | `svn+ssh://localhost:12345` parses to the listed components and its scheme selects the listed transport |
| UrlVectors.Accepts16 | CommunicationLayer/src/Test/main_TestParseUrl.cpp:54 | `TCP+TV://host:456` parses to the listed components and its scheme selects the listed transport |
| UrlVectors.Accepts17 | CommunicationLayer/src/Test/main_TestParseUrl.cpp:55 | `tCp+tV://192.168.52.1:999` parses to the listed components and its scheme selects the listed transport |
| UrlVectors.Accepts18 | CommunicationLayer/src/Test/main_TestParseUrl.cpp:56 | `tcp+tv+0://192.168.52.1:999` parses to the listed components and its scheme selects the listed transport |
| UrlVectors.Accepts19 | CommunicationLayer/src/Test/main_TestParseUrl.cpp:57 | `tv+tcp://myhost:2` parses to the listed components and its scheme selects the listed transport |
| UrlVectors.Accepts20 | CommunicationLayer/src/Test/main_TestParseUrl.cpp:58 | `tv+tcp://myhost` parses to the listed components and its scheme selects the listed transport |
| UrlVectors.Accepts21 | CommunicationLayer/src/Test/main_TestParseUrl.cpp:59 | `tcp+tv+2://192.168.52.1:999` parses to the listed components and its scheme selects the listed transport |
| UrlVectors.Rejects01 | CommunicationLayer/src/Test/main_TestParseUrl.cpp:63 | the empty string is refused as malformed |
| UrlVectors.Rejects02 | CommunicationLayer/src/Test/main_TestParseUrl.cpp:64 | `?` is refused as malformed |
| UrlVectors.Rejects03 | CommunicationLayer/src/Test/main_TestParseUrl.cpp:65 | `foo` is refused as malformed |
| UrlVectors.Rejects04 | CommunicationLayer/src/Test/main_TestParseUrl.cpp:66 | `12` is refused as malformed |
| UrlVectors.Rejects05 | CommunicationLayer/src/Test/main_TestParseUrl.cpp:67 | `123://` is refused as malformed |
| UrlVectors.Rejects06 | CommunicationLayer/src/Test/main_TestParseUrl.cpp:68 | `123://path` is refused as malformed |
| UrlVectors.Rejects07 | CommunicationLayer/src/Test/main_TestParseUrl.cpp:69 | `123:///path` is refused as malformed |
| UrlVectors.Rejects08 | CommunicationLayer/src/Test/main_TestParseUrl.cpp:70 | `unix:///tmp//` is refused as malformed |
| UrlVectors.Rejects09 | CommunicationLayer/src/Test/main_TestParseUrl.cpp:71 | `unix:///tmp//foo` is refused as malformed |
| UrlVectors.Rejects10 | CommunicationLayer/src/Test/main_TestParseUrl.cpp:72 | `unix:///tmp//foo/` is refused as malformed |
| UrlVectors.Rejects11 | CommunicationLayer/src/Test/main_TestParseUrl.cpp:73 | `unix:////tmp` is refused as malformed |
| UrlVectors.Rejects12 | CommunicationLayer/src/Test/main_TestParseUrl.cpp:75 | `unix:////` is refused as malformed |
| UrlVectors.Rejects13 | CommunicationLayer/src/Test/main_TestParseUrl.cpp:76 | `http://localhost:0` is refused as malformed |
| UrlVectors.Rejects14 | CommunicationLayer/src/Test/main_TestParseUrl.cpp:77 | `http://localhost:00` is refused as malformed |
| UrlVectors.Rejects15 | CommunicationLayer/src/Test/main_TestParseUrl.cpp:78 | `http://localhost:01` is refused as malformed |
| UrlVectors.Rejects16 | CommunicationLayer/src/Test/main_TestParseUrl.cpp:79 | `http://localhost:80:80` is refused as malformed |
| UrlVectors.Rejects17 | CommunicationLayer/src/Test/main_TestParseUrl.cpp:80 | `http://localhost:65536` is refused as malformed |
| UrlVectors.Rejects18 | CommunicationLayer/src/Test/main_TestParseUrl.cpp:81 | `http://localhost:9999999999999999999999999999999999999` is refused as malformed |
| UrlVectors.Rejects19 | CommunicationLayer/src/Test/main_TestParseUrl.cpp:82 | `http:///localhost:80` is refused as malformed |
| UrlVectors.Rejects20 | CommunicationLayer/src/Test/main_TestParseUrl.cpp:83 | `http:///localhost:80/path` is refused as malformed |
| UrlVectors.Rejects21 | CommunicationLayer/src/Test/main_TestParseUrl.cpp:84 | `http://localhost:80/path//` is refused as malformed |
| UrlVectors.Rejects22 | CommunicationLayer/src/Test/main_TestParseUrl.cpp:85 | `http://localhost:80/path:123` is refused as malformed |
| Version.FieldValue | CommunicationLayer/src/Test/main_TestVersionNumber.cpp:49-50 | a field's value is its decimal value modulo 2^32, and a leading '-' gives the 32-bit negation of it; see also lines 53-56 |
| Version.FromString | CommunicationLayer/src/Test/main_TestVersionNumber.cpp:45-66 | a successful parse means the text is two valid fields around its first '.', and the version holds their wrapped values |
| Version.ToString | CommunicationLayer/src/Test/main_TestVersionNumber.cpp:74-83 | the printed version parses back to the same version |
| Version.FromStringOf | CommunicationLayer/src/Test/main_TestVersionNumber.cpp:46-56 | any two valid fields joined by '.' parse to their wrapped values |
| Version.FromStringNeedsDot | CommunicationLayer/src/Test/main_TestVersionNumber.cpp:58 | a text without '.' is never a version; see also line 65 |
| Version.FromStringOrZero | CommunicationLayer/src/Test/main_TestVersionNumber.cpp:142-153 | reading into a default pair gives the parsed version, or (0, 0) when the text does not parse |
| Version.LessIsKeyOrder | CommunicationLayer/src/Test/main_TestVersionNumber.cpp:110-117 | the lexicographic order of pairs is the numeric order of major * 2^32 + minor, and equality agrees with it |
| Version.Trichotomy | CommunicationLayer/src/Test/main_TestVersionNumber.cpp:119-133 | of two versions exactly one is less, equal or greater |
| Version.NegotiatedVersion | TVAgentAPIPrivate/Library/export/TVAgentAPIPrivate/CommunicationChannel.cpp:1039-1049 | the version used for discovery is ours or the agent's, whichever is not greater, and is at most both |
| Version.NegotiateUnreadable | TVAgentAPIPrivate/Library/export/TVAgentAPIPrivate/CommunicationChannel.cpp:1039-1046 | an agent reply that does not parse makes discovery use "0.0" |
| VersionVectors.FieldIs | CommunicationLayer/src/Test/main_TestVersionNumber.cpp:46-56 | a field given by its digits has the wrapped value of those digits |
| VersionVectors.Parses01 | CommunicationLayer/src/Test/main_TestVersionNumber.cpp:46 | the text parses to the listed version |
| VersionVectors.Parses02 | CommunicationLayer/src/Test/main_TestVersionNumber.cpp:47 | the text parses to the listed version |
| VersionVectors.Parses03 | CommunicationLayer/src/Test/main_TestVersionNumber.cpp:48 | the text parses to the listed version |
| VersionVectors.Parses04 | CommunicationLayer/src/Test/main_TestVersionNumber.cpp:49 | the text parses to the listed version |
| VersionVectors.Parses05 | CommunicationLayer/src/Test/main_TestVersionNumber.cpp:50 | the text parses to the listed version |
| VersionVectors.Parses06 | CommunicationLayer/src/Test/main_TestVersionNumber.cpp:51 | the text parses to the listed version |
| VersionVectors.Parses07 | CommunicationLayer/src/Test/main_TestVersionNumber.cpp:52 | the text parses to the listed version |
| VersionVectors.Parses08 | CommunicationLayer/src/Test/main_TestVersionNumber.cpp:53 | the text parses to the listed version |
| VersionVectors.Parses09 | CommunicationLayer/src/Test/main_TestVersionNumber.cpp:54 | the text parses to the listed version |
| VersionVectors.Parses10 | CommunicationLayer/src/Test/main_TestVersionNumber.cpp:55 | the text parses to the listed version |
| VersionVectors.Parses11 | CommunicationLayer/src/Test/main_TestVersionNumber.cpp:56 | the text parses to the listed version |
| VersionVectors.Rejects01 | CommunicationLayer/src/Test/main_TestVersionNumber.cpp:58 | the text is refused and leaves the default (0, 0) |
| VersionVectors.Rejects02 | CommunicationLayer/src/Test/main_TestVersionNumber.cpp:59 | the text is refused and leaves the default (0, 0) |
| VersionVectors.Rejects03 | CommunicationLayer/src/Test/main_TestVersionNumber.cpp:60 | the text is refused and leaves the default (0, 0) |
| VersionVectors.Rejects04 | CommunicationLayer/src/Test/main_TestVersionNumber.cpp:61 | the text is refused and leaves the default (0, 0) |
| VersionVectors.Rejects05 | CommunicationLayer/src/Test/main_TestVersionNumber.cpp:62 | the text is refused and leaves the default (0, 0) |
| VersionVectors.Rejects06 | CommunicationLayer/src/Test/main_TestVersionNumber.cpp:63 | the text is refused and leaves the default (0, 0) |
| VersionVectors.Rejects07 | CommunicationLayer/src/Test/main_TestVersionNumber.cpp:64 | the text is refused and leaves the default (0, 0) |
| VersionVectors.Rejects08 | CommunicationLayer/src/Test/main_TestVersionNumber.cpp:65 | the text is refused and leaves the default (0, 0) |
| VersionVectors.PrintsDefault | CommunicationLayer/src/Test/main_TestVersionNumber.cpp:75 | the default version prints as "0.0" |
| VersionVectors.Prints01 | CommunicationLayer/src/Test/main_TestVersionNumber.cpp:76 | the version prints as the listed text |
| VersionVectors.Prints02 | CommunicationLayer/src/Test/main_TestVersionNumber.cpp:77 | the version prints as the listed text |
| VersionVectors.Prints03 | CommunicationLayer/src/Test/main_TestVersionNumber.cpp:78 | the version prints as the listed text |
| VersionVectors.Prints04 | CommunicationLayer/src/Test/main_TestVersionNumber.cpp:79 | the version prints as the listed text |
| VersionVectors.Prints05 | CommunicationLayer/src/Test/main_TestVersionNumber.cpp:80 | the version prints as the listed text |
| VersionVectors.Prints06 | CommunicationLayer/src/Test/main_TestVersionNumber.cpp:81 | the version prints as the listed text |
| VersionVectors.Prints07 | CommunicationLayer/src/Test/main_TestVersionNumber.cpp:82 | the version prints as the listed text |
| VersionVectors.Compares01 | CommunicationLayer/src/Test/main_TestVersionNumber.cpp:121-122 | equal default versions compare equal, not greater, greater-or-equal, not less, less-or-equal |
| VersionVectors.Compares02 | CommunicationLayer/src/Test/main_TestVersionNumber.cpp:123 | the pair gives the five comparison results listed in the table |
| VersionVectors.Compares03 | CommunicationLayer/src/Test/main_TestVersionNumber.cpp:124 | the pair gives the five comparison results listed in the table |
| VersionVectors.Compares04 | CommunicationLayer/src/Test/main_TestVersionNumber.cpp:125 | the pair gives the five comparison results listed in the table |
| VersionVectors.Compares05 | CommunicationLayer/src/Test/main_TestVersionNumber.cpp:126 | the pair gives the five comparison results listed in the table |
| VersionVectors.Compares06 | CommunicationLayer/src/Test/main_TestVersionNumber.cpp:127 | the pair gives the five comparison results listed in the table |
| VersionVectors.Compares07 | CommunicationLayer/src/Test/main_TestVersionNumber.cpp:128 | the pair gives the five comparison results listed in the table |
| VersionVectors.Compares08 | CommunicationLayer/src/Test/main_TestVersionNumber.cpp:129 | the pair gives the five comparison results listed in the table |
| VersionVectors.Compares09 | CommunicationLayer/src/Test/main_TestVersionNumber.cpp:130 | the pair gives the five comparison results listed in the table |
| VersionVectors.Compares10 | CommunicationLayer/src/Test/main_TestVersionNumber.cpp:131 | the pair gives the five comparison results listed in the table |
| VersionVectors.Compares11 | CommunicationLayer/src/Test/main_TestVersionNumber.cpp:132 | the pair gives the five comparison results listed in the table |
| XkbMap.DeadKeys | TVQtRC/Library/internal/InputSimulation/XKBMap.cpp:191-210 | the table's dead keys pair `dead_grave` … `dead_horn` one to one, in order, with Qt's dead keys |
| XkbMap.TableShape | TVQtRC/Library/internal/InputSimulation/XKBMap.cpp:49-212 | the table holds 125 pairs with non-zero symbols and keys, so only the closing 0 pair stops the search; the dead keys come last and no earlier entry is a dead key |
| XkbMap.FirstEntry | TVQtRC/Library/internal/InputSimulation/XKBMap.cpp:218-225 | the index found holds the key, and no earlier entry does; the table's length means not found |
| XkbMap.KeysymToQtKey | TVQtRC/Library/internal/InputSimulation/XKBMap.cpp:214-229 | a non-zero symbol gives the Qt key of its first entry, or 0 when it has none; symbol 0 gives 0 |
| XkbMap.Search | TVQtRC/Library/internal/InputSimulation/XKBMap.cpp:214-229 | the scan up to the 0 pair returns the first matching entry's key, or 0 |
| XkbMap.Lookup | TVQtRC/Library/internal/InputSimulation/XKBMap.cpp:214-229 | the lookup gives a non-zero key exactly when the table lists the symbol |
| XkbMap.LookupAgrees | TVQtRC/Library/internal/InputSimulation/XKBMap.cpp:214-229 | the scanning method and the lookup function agree on every symbol |
| XkbMap.MiscEntry | TVQtRC/Library/internal/InputSimulation/XKBMap.cpp:52-63 | every miscellaneous key is found at its own entry |
| XkbMap.CursorEntry | TVQtRC/Library/internal/InputSimulation/XKBMap.cpp:67-74 | every cursor key is found at its own entry, past the miscellaneous ones |
| XkbMap.KeypadEntry | TVQtRC/Library/internal/InputSimulation/XKBMap.cpp:102-126 | every keypad key the table lists is found at its own entry, past the sections before it |
| XkbMap.ClearIsDelete | TVQtRC/Library/internal/InputSimulation/XKBMap.cpp:52-59 | Clear is taken for Delete, and Escape and ISO_Left_Tab give Escape and Backtab |
| XkbMap.ToUpperAscii | TVQtRC/Library/internal/InputSimulation/XKBMap.cpp:241 | upper-casing in the C locale changes exactly the lower-case ASCII letters |
| XkbMap.XkbToQtKey | TVQtRC/Library/internal/InputSimulation/XKBMap.cpp:231-276 | the answer is true iff the key is non-zero; only keypad keys add the keypad modifier; Latin-1 symbols give their printable upper-case value or 0; F1 … F35 and the keypad digits map in order; other keypad keys use the table |
| XkbMap.CharacterOrTable | TVQtRC/Library/internal/InputSimulation/XKBMap.cpp:261-273 | outside the four ranges a printable character is upper-cased through the Unicode mapping, and otherwise, or for a dead key, the table decides |
| XkbMap.KeypadLikeMain | TVQtRC/Library/internal/InputSimulation/XKBMap.cpp:67-74 | each keypad navigation key and the keypad Tab give the Qt key of the main key they stand for, told apart only by the keypad modifier; see also lines 102-126, lines 248-260 |
| XkbMap.NavigationLookup | TVQtRC/Library/internal/InputSimulation/XKBMap.cpp:67-74 | each keypad navigation key and its main key have the same non-zero table entry; see also lines 102-126 |
| XkbMap.NavigationRanges | TVQtRC/Library/internal/InputSimulation/XKBMap.cpp:248-260 | the keypad navigation keys lie in the keypad range before the digits, their main keys in none of the special ranges |
| XkbMap.KeypadEqualUnmarked | TVQtRC/Library/internal/InputSimulation/XKBMap.cpp:120 | KP_Equal lies past KP_9, so it is translated through the table to '=' without the keypad modifier; see also lines 248-273 |
| XkbMap.KeypadOperators | TVQtRC/Library/internal/InputSimulation/XKBMap.cpp:121-126 | the keypad's operator keys give the ASCII keys '*' to '/' in order, with the keypad modifier; see also lines 248-260 |
| XkbMap.DeadKeysTranslate | TVQtRC/Library/internal/InputSimulation/XKBMap.cpp:191-210 | a listed dead key gives its Qt dead key whatever character it would produce; see also lines 261-273 |
| XkbMap.UnlistedDeadKeysRefused | TVQtRC/Library/internal/InputSimulation/XKBMap.cpp:261-275 | a dead key after `dead_horn` is refused even when it would produce a character |
| XkbMap.LettersCaseInsensitive | TVQtRC/Library/internal/InputSimulation/XKBMap.cpp:238-242 | a lower-case and an upper-case Latin letter give the same Qt key, and both are accepted |
| XkbMap.XkbToQtModifiers | TVQtRC/Library/internal/InputSimulation/XKBMap.cpp:278-307 | Shift, Control, Alt (Mod1) and Meta (Mod4) follow their bits; the group switch follows Mod3 or Mod5; the keypad modifier follows Mod2 or Lock |
| XkbMap.ModifiersLowByte | TVQtRC/Library/internal/InputSimulation/XKBMap.cpp:35-45 | only the eight core modifier bits affect the result; see also lines 278-307 |
| XkbMap.ModifierAliases | TVQtRC/Library/internal/InputSimulation/XKBMap.cpp:295-304 | Lock and Mod2 give the same keypad modifier, Mod3 and Mod5 the same group switch, and no bits give no modifiers |

## Left out

- Threads, event loops, sockets, gRPC and protobuf transport, file and console I/O, and logging are not modelled. What a remote end answers, whether a server starts, and what a host callback returns are parameters of the operations.
- Qt UI plumbing is not modelled: widgets, windows, screens, geometry, timers as objects, and queued connections. The Qt applications' effects are returned as lists instead.
- Time stamps as clock values and locale formatting are not modelled. A time stamp is a number, and the Qt applications' locale text for one is not part of this model.
- The `ParseUrl` and `VersionNumber` implementations (`ParseUrl.h`, `VersionNumber.h`) are not part of this model. `Url` and `Version` are rules fitted to the test vectors in `main_TestParseUrl.cpp` and `main_TestVersionNumber.cpp`.
- Version.FromStringOrZero: the test for a failed parse checks only the value, not the success flag. The member therefore assumes that a failed parse leaves the default pair, which is what the vectors show.
- The header that numbers `ServiceType` is not part of this model. Services are numbered in the order of the mediator's factory list, with Unknown as 0 and ViewGeometry as 18. The bit-mask lemmas are stated against that numbering.
- The Qt SDK enums and the `QUuid` parser are not part of this model. A `QUuid` is taken as its braced text.
- XKB key symbols and Qt key codes are the public xkbcommon and Qt values. `isprint` and `toupper` follow the C locale. `QChar::toUpper` is a parameter.
- The email check of instant support is modelled as a predicate (`TVQtRCPlugin.EmailMatches`) that states the regular expression's matches directly, not through a regular-expression engine. Its case folding covers the ASCII letters and the two non-ASCII letters that fold onto them (U+212A and U+017F), which is what the PCRE2 library does in UTF mode; `\b` uses ASCII word characters because the pattern does not ask for Unicode properties.
- AgentConnection.ProcessEvents: waiting for further events (`waitForMoreEvents`, `timeoutMs`) is not modelled, and the dispatcher's queue holds only the status notifications. The answer is therefore whether notifications were queued when the call was made.
- ImageService.UpdateImageRoundTrip: the round trip is stated only for pictures of fewer than 2^32 chunks (below 8 PiB). The server reads the chunk count as a `uint32`, and the model keeps that truncation (`CountModulus`); a larger picture would not arrive intact.
- ImageService.BrokenStreamAborts: the same bound of fewer than 2^32 chunks applies.
- Sorting: the C++ chat example uses `std::sort`, which is not stable. Its model, `ChatMessages.Sort`, is a stable sort, so it pins down one of the orders `std::sort` may produce. The properties claimed for the C++ example are sortedness, the permutation and the count of each ID, which hold for any sort. The properties that rest on stability (`ChatMessages.SortStable`, `ChatMessages.SortOfSorted`, `ChatMessages.AddMessageIdempotent`) are claimed for the Python example's stable `list.sort` only; with tied time stamps `std::sort` may reorder a sorted list.
- `ChatModule.isSupported` and `TVSessionManagementModule.isSupported` are not modelled. Both return whether the agent connection is alive, which is the `alive` parameter of every operation in those modules.
- ChatModule forwards the channel's `chatCreated`, `chatsRemoved`, `closedChat`, `receivedMessages` and `loadedMessages` signals to the host unchanged (`ChatModule.cpp:257-375`). These forwards are not modelled; only the sent and not-sent mapping is.
- The qtsimulate application's `closeInstantSupportCase` and `isAugmentRCSessionFeatureAvailable` calls, and the Qt application's `toAppInstantSupportError` and `toAppInstantSupportState` switches, are not modelled. They are one-to-one renamings of the plugin's enums.
- The session code is a `uint32` in the source; the model takes a natural number.
- In the session-management test script, a failed `assert` ends the script. The model yields `None` instead.
- Observations that are not findings, each kept as a lemma:
  - the Qt application re-connects its timeout timer on every confirmation request (`QtAppModel.RepeatedRequestsRepeatTimeout`);
  - it has no accept or deny path for remote control;
  - it emits `accessModeChanged` for an unrecognised feature;
  - its `getAccessMode` call discards the answer;
  - it computes `timeout * 1000` in `uint32`;
  - the Qt application sends the confirmation reply through a queued connection, after its timer stops;
  - qtsimulate's disconnect keeps the access modes and the listening flag;
  - `SendGetAccessMode` writes its output even when the channel call fails (`CommunicationAdapter.GetAccessModeWritesOnFailure`);
  - the image server does not insist on a communication ID;
  - KP_Equal lies outside KP_Space..KP_9, so it gets no keypad modifier (`XkbMap.KeypadEqualUnmarked`);
  - the dead keys from `dead_belowdot` to `dead_currency` are not in the key table, so they fail to translate (`XkbMap.UnlistedDeadKeysRefused`).

## Findings

| source | as written | input that shows it | evidently intended | confidence | as-written member | corrected member |
|---|---|---|---|---|---|---|
| TVQtRC/Library/internal/Communication/CommunicationAdapter.cpp:228-247 | the `ConnectionIsInUse` case sets the result but has no `return true`, so it falls through to `return false`; `setRemoteScreenSdkUrls` and `setRemoteScreenSdkBaseUrlChecked` then report `SchemaNotValid` | the channel answers `ConnectionIsInUse` (a running channel) | the case returns true and the plugin reports `ConnectionIsInUse` | not executed; high | CommunicationAdapter.RunningChannelMisreported | CommunicationAdapter.ReportFaithful |
| examples/py/chat.py:241-256 | `send_result` is a binding enum object, which is always truthy, so `is_send_failed = not send_result` is always False and a failed send is never marked | a `send_message_finished` with result `Failed` for a pending placeholder | the placeholder is marked failed exactly when the result is `Failed` | not executed; medium | PyChatExample.FailureNeverMarked | PyChatExample.FailureMarked |
| CommunicationLayer/src/ChatService/Library/internal/Client/ChatInServiceClient.cpp:64-103 | the state is set to `Ok` before the chats are decoded; a chat of unlisted type or state then leaves `Ok` with an error message and no chats, and the channel reports success with an empty list | an `ObtainChats` response holding one chat whose type is not listed | a decoding failure is reported as a failed call | not executed; medium | ChatService.UndecodableReportedOk | ChatService.HandleObtainChats |
| examples/py/chat.py:208-214 | `chat_closed` assigns `chat_state`, an attribute no other code reads, instead of the room's `state` | one open room, closed by its ID | the room's `state` becomes closed | not executed; high | PyChatExample.ClosingDiffers | PyChatExample.ClosingAgrees |
| examples/py/chat.py:189-194 | `chat_created` passes `endpoint_type` into the `chat_endpoint_id` slot and `endpoint_id` into `chat_endpoint_type`, the reverse of the constructor's order at lines 111-115 | a created chat with distinct endpoint type and ID | the slots are filled as `load_chats` fills them | not executed; medium (only printing reads these slots) | PyChatExample.CreatedSlotsSwapped | PyChatExample.CreatedMatchesLoaded |
