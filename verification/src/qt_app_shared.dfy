/** What the two Qt example applications (`examples/Qt` and
    `examples/Qt/qtsimulate`) do alike: the control-mode conversions, the
    printed form of a session code, and the chat view — the selected chat,
    its title, the next local message id and the handlers of the chat
    signals.

    A `QUuid` is a string here and the null id is the empty string. Time
    stamps are shown in a locale format that is not part of this model, so
    messages carry none. What the chat plugin answers (whether `obtainChats`,
    `selectChat` or `sendMessage` succeeded, and with which chats) is a
    parameter; a call the application makes to it is an effect. */
module QtAppShared {
  import opened Wrappers
  import Ad = CommunicationAdapter
  import Dec = Decimal
  import Seqs

  const Uint32Modulus: nat := 0x1_0000_0000

  // ---------------------------------------------------------------------
  // Control mode

  /** `AppModel::ControlMode`; an integer from QML that is none of the three
      is `UnlistedControlMode`. */
  datatype ControlMode = ModelDisabled | ModelViewOnly | ModelFullControl | UnlistedControlMode(raw: int)

  /** `static_cast<ControlMode>` of the integer QML passes in. */
  function ControlModeOf(v: int): (r: ControlMode)
    ensures r.UnlistedControlMode? <==> !(0 <= v <= 2)
    ensures r.UnlistedControlMode? ==> r.raw == v
  {
    if v == 0 then ModelDisabled
    else if v == 1 then ModelViewOnly
    else if v == 2 then ModelFullControl
    else UnlistedControlMode(v)
  }

  /** `toModelValue`: a mode the plugin does not list shows as disabled. */
  function ToModelControlMode(m: Ad.ControlMode): (r: ControlMode)
    ensures !r.UnlistedControlMode?
    ensures m.UnlistedControlMode? ==> r == ModelDisabled
  {
    if m.Disabled? then ModelDisabled
    else if m.ViewOnly? then ModelViewOnly
    else if m.FullControl? then ModelFullControl
    else ModelDisabled
  }

  /** `toPluginValue`: an unlisted mode requests disabled. */
  function ToPluginControlMode(m: ControlMode): (r: Ad.ControlMode)
    ensures !r.UnlistedControlMode?
    ensures m.UnlistedControlMode? ==> r == Ad.Disabled
  {
    match m
    case ModelDisabled => Ad.Disabled
    case ModelViewOnly => Ad.ViewOnly
    case ModelFullControl => Ad.FullControl
    case UnlistedControlMode(_) => Ad.Disabled
  }

  /** `controlMode()`: the plugin's mode, or disabled without a plugin. */
  function ShownControlMode(hasPlugin: bool, current: Ad.ControlMode): (r: ControlMode)
    ensures !hasPlugin ==> r == ModelDisabled
    ensures hasPlugin && !current.UnlistedControlMode? ==> ToPluginControlMode(r) == current
  {
    if hasPlugin then ToModelControlMode(current) else ModelDisabled
  }

  /** The two conversions are inverse on the listed modes, and an integer
      from QML requests the mode it numbers, any other disabling control. */
  lemma ControlModeRoundTrip(m: ControlMode, p: Ad.ControlMode, v: int)
    ensures !m.UnlistedControlMode? ==> ToModelControlMode(ToPluginControlMode(m)) == m
    ensures !p.UnlistedControlMode? ==> ToPluginControlMode(ToModelControlMode(p)) == p
    ensures ToPluginControlMode(ControlModeOf(v))
         == if v == 1 then Ad.ViewOnly else if v == 2 then Ad.FullControl else Ad.Disabled
  {
  }

  /** `requestControlMode`: the integer from QML, read as a control mode,
      is requested from the plugin when there is one. */
  function RequestControlMode(hasPlugin: bool, v: int): (r: Option<Ad.ControlMode>)
    ensures r.Some? <==> hasPlugin
    ensures r.Some? ==> r.value == if v == 1 then Ad.ViewOnly else if v == 2 then Ad.FullControl else Ad.Disabled
  {
    ControlModeRoundTrip(ModelDisabled, Ad.Disabled, v);
    if hasPlugin then Some(ToPluginControlMode(ControlModeOf(v))) else None
  }

  /** A `uint32_t` passed where an `int` is expected: values from 2^31 on
      turn negative. */
  function Uint32ToInt(x: nat): (r: int)
    requires x < Uint32Modulus
    ensures -0x8000_0000 <= r < 0x8000_0000
    ensures r % Uint32Modulus == x
  {
    if x < 0x8000_0000 then x else x - Uint32Modulus
  }

  // ---------------------------------------------------------------------
  // Session codes

  /** `SessionCodeToString`: "s", the millions with at least two digits, a
      dash, the thousands and the units with three digits each. */
  function SessionCodeToString(code: nat): (r: string)
    ensures |r| >= 11 && r[0] == 's'
  {
    "s" + Dec.PadLeft(Dec.ToDecimal(code / 1000000), 2, '0')
      + "-" + Dec.PadLeft(Dec.ToDecimal(code / 1000 % 1000), 3, '0')
      + "-" + Dec.PadLeft(Dec.ToDecimal(code % 1000), 3, '0')
  }

  /** Reads a printed session code back: "s", digits, a dash, three digits,
      a dash, three digits. */
  function ParseSessionCode(s: string): (r: Option<nat>)
    ensures r.Some? ==> |s| >= 11 && s[0] == 's' && s[|s| - 8] == '-' && s[|s| - 4] == '-'
  {
    if |s| >= 11 && s[0] == 's' && s[|s| - 8] == '-' && s[|s| - 4] == '-'
       && Dec.AllDigits(s[1..|s| - 8]) && Dec.AllDigits(s[|s| - 7..|s| - 4]) && Dec.AllDigits(s[|s| - 3..])
    then Some(Dec.Value(s[1..|s| - 8]) * 1000000 + Dec.Value(s[|s| - 7..|s| - 4]) * 1000 + Dec.Value(s[|s| - 3..]))
    else None
  }

  lemma ThreeGroups(code: nat)
    ensures code / 1000000 * 1000000 + code / 1000 % 1000 * 1000 + code % 1000 == code
  {
    var q := code / 1000;
    assert code == q * 1000 + code % 1000;
    assert q == q / 1000 * 1000 + q % 1000;
    assert q / 1000 == code / 1000000;
  }

  /** Three digit groups in the printed layout read back as their values. */
  lemma ParseGroups(a: string, b: string, c: string)
    requires Dec.AllDigits(a) && Dec.AllDigits(b) && Dec.AllDigits(c)
    requires |a| >= 2 && |b| == 3 && |c| == 3
    ensures ParseSessionCode("s" + a + "-" + b + "-" + c) == Some(Dec.Value(a) * 1000000 + Dec.Value(b) * 1000 + Dec.Value(c))
  {
    var s := "s" + a + "-" + b + "-" + c;
    assert s[1..|s| - 8] == a;
    assert s[|s| - 7..|s| - 4] == b;
    assert s[|s| - 3..] == c;
  }

  /** The printed code reads back as the code: no two session codes print
      alike. */
  lemma SessionCodeRoundTrip(code: nat)
    ensures ParseSessionCode(SessionCodeToString(code)) == Some(code)
  {
    var x, y, z := code / 1000000, code / 1000 % 1000, code % 1000;
    var a := Dec.PadLeft(Dec.ToDecimal(x), 2, '0');
    var b := Dec.PadLeft(Dec.ToDecimal(y), 3, '0');
    var c := Dec.PadLeft(Dec.ToDecimal(z), 3, '0');
    PaddedGroup(x, 2);
    PaddedGroup(y, 3);
    PaddedGroup(z, 3);
    PaddedThree(y);
    PaddedThree(z);
    ReadBack(code, a, b, c);
  }

  lemma ReadBack(code: nat, a: string, b: string, c: string)
    requires SessionCodeToString(code) == "s" + a + "-" + b + "-" + c
    requires Dec.AllDigits(a) && Dec.AllDigits(b) && Dec.AllDigits(c)
    requires |a| >= 2 && |b| == 3 && |c| == 3
    requires Dec.Value(a) == code / 1000000 && Dec.Value(b) == code / 1000 % 1000 && Dec.Value(c) == code % 1000
    ensures ParseSessionCode(SessionCodeToString(code)) == Some(code)
  {
    ParseGroups(a, b, c);
    ThreeGroups(code);
  }

  /** A number printed and zero-padded to `w` places reads back as itself. */
  lemma PaddedGroup(v: nat, w: nat)
    ensures Dec.AllDigits(Dec.PadLeft(Dec.ToDecimal(v), w, '0'))
    ensures Dec.Value(Dec.PadLeft(Dec.ToDecimal(v), w, '0')) == v
    ensures |Dec.PadLeft(Dec.ToDecimal(v), w, '0')| >= w
  {
    Dec.ValuePadLeft(Dec.ToDecimal(v), w);
    Dec.ValueOfToDecimal(v);
  }

  /** A group below 1000 padded to three places takes exactly three. */
  lemma PaddedThree(v: nat)
    requires v < 1000
    ensures |Dec.PadLeft(Dec.ToDecimal(v), 3, '0')| == 3
  {
    assert Dec.Pow10(3) == 1000;
    Dec.ToDecimalLength(v, 3);
  }

  lemma SessionCodeInjective(m: nat, n: nat)
    requires SessionCodeToString(m) == SessionCodeToString(n)
    ensures m == n
  {
    SessionCodeRoundTrip(m);
    SessionCodeRoundTrip(n);
  }

  /** A code below 100 million prints in eleven characters,
      "sMM-TTT-UUU". */
  lemma SessionCodeShape(code: nat)
    requires code < 100000000
    ensures |SessionCodeToString(code)| == 11
  {
    assert Dec.Pow10(2) == 100;
    Dec.ToDecimalLength(code / 1000000, 2);
    assert Dec.Pow10(3) == 1000;
    Dec.ToDecimalLength(code / 1000 % 1000, 3);
    Dec.ToDecimalLength(code % 1000, 3);
  }

  /** The `chatTypeId` text of a contact: the session code of a session
      chat, empty for any other. */
  function ChatTypeIdText(t: Ad.ChatType, id: nat): (r: string)
    ensures r != [] <==> t == Ad.Session
    ensures r != [] ==> ParseSessionCode(r) == Some(id)
  {
    if t == Ad.Session then SessionCodeRoundTrip(id); SessionCodeToString(id) else ""
  }

  /** The title shown for a chat: its own title, a space and the
      `chatTypeId` text. */
  function ChatTitle(title: string, t: Ad.ChatType, id: nat): (r: string)
    ensures |r| > |title| && r[..|title|] == title && r[|title|] == ' '
    ensures ParseSessionCode(r[|title| + 1..]) == if t == Ad.Session then Some(id) else None
  {
    var r := title + " " + ChatTypeIdText(t, id);
    assert r[|title| + 1..] == ChatTypeIdText(t, id);
    r
  }

  // ---------------------------------------------------------------------
  // Chat view

  type Uuid = string

  /** `QUuid()`. */
  const NullUuid: Uuid := ""

  /** A `tvqtsdk::ReceivedMessage` without its time stamp. */
  datatype Message = Message(chatId: Uuid, messageId: Uuid, content: string, sender: string)

  /** The JSON object `chatInfoToJsonObject` builds for the contact list. */
  datatype Contact = Contact(chatId: Uuid, title: string, chatType: Ad.ChatType, chatTypeId: string, chatState: Ad.ChatState)

  function ToContact(c: Ad.ChatInfo): Contact {
    Contact(c.chatId, c.title, c.chatType, ChatTypeIdText(c.chatType, c.chatTypeId), c.chatState)
  }

  /** The chat part of an `AppModel`: whether the plugin gave it a chat
      object, the selected chat (null for none), the title and the local id
      of the next message sent (a `uint32_t`). */
  datatype ChatView = ChatView(hasChat: bool, selected: Uuid, title: string, lastLocalMessageId: nat)

  const DefaultTitle: string := "Chat"

  /** The number of messages `loadMessages` asks for unless told otherwise. */
  const DefaultPageSize: nat := 10

  function InitialChatView(hasChat: bool): (r: ChatView)
    ensures r.selected == NullUuid && r.title == DefaultTitle && r.lastLocalMessageId == 0
  {
    ChatView(hasChat, NullUuid, DefaultTitle, 0)
  }

  /** Signals to the user interface and calls on the plugin's chat. */
  datatype ChatEffect =
    | NewContactAdded(contact: Contact)
    | ChatTitleChanged
    | ChatSelected
    | NewChatMessageAdded(content: string, sender: string)
    | LoadedMessagesAdded(loadedContent: string, loadedSender: string)
    | CallSelectChat(selectId: Uuid)
    | CallSendMessage(localId: nat, sendContent: string)
    | CallLoadMessages(count: nat, lastId: Uuid)

  /** `chatCreated`: the new chat joins the contact list, and it becomes the
      selected chat, with its title, only when no chat is selected. */
  function ChatCreated(v: ChatView, chatId: Uuid, title: string, t: Ad.ChatType, typeId: nat): (r: (ChatView, seq<ChatEffect>))
    ensures |r.1| > 0 && r.1[0] == NewContactAdded(Contact(chatId, title, t, ChatTypeIdText(t, typeId), Ad.Open))
    ensures v.selected != NullUuid ==> r.0 == v && |r.1| == 1
    ensures v.selected == NullUuid ==> (
      && r.0 == v.(selected := chatId, title := ChatTitle(title, t, typeId))
      && r.1[1..] == [CallSelectChat(chatId), ChatTitleChanged, ChatSelected])
  {
    var added := [NewContactAdded(ToContact(Ad.ChatInfo(chatId, title, t, typeId, Ad.Open)))];
    if v.selected == NullUuid then
      (v.(selected := chatId, title := ChatTitle(title, t, typeId)), added + [CallSelectChat(chatId), ChatTitleChanged, ChatSelected])
    else (v, added)
  }

  /** Once a chat is selected, later chats are only listed: the first
      non-null chat created wins. */
  lemma FirstCreatedChatStaysSelected(v: ChatView, id1: Uuid, id2: Uuid, t1: string, t2: string, k1: Ad.ChatType, k2: Ad.ChatType, n1: nat, n2: nat)
    requires v.selected == NullUuid && id1 != NullUuid
    ensures var v1 := ChatCreated(v, id1, t1, k1, n1).0;
      ChatCreated(v1, id2, t2, k2, n2).0 == v1 && v1.selected == id1
  {
  }

  /** `sendChatMessage`: shows the message as the user's own and passes it to
      the chat with the current local id, which advances (wrapping as a
      `uint32_t`) only when the chat accepted it. */
  function SendChatMessage(v: ChatView, content: string, sent: bool): (r: (ChatView, seq<ChatEffect>))
    requires v.lastLocalMessageId < Uint32Modulus
    ensures r.0.lastLocalMessageId < Uint32Modulus
    ensures r.0.(lastLocalMessageId := v.lastLocalMessageId) == v
    ensures r.0.lastLocalMessageId != v.lastLocalMessageId <==> v.hasChat && sent
    ensures r.1 == if v.hasChat then [NewChatMessageAdded(content, "Me"), CallSendMessage(v.lastLocalMessageId, content)] else []
  {
    if !v.hasChat then (v, [])
    else
      var next := if sent then (v.lastLocalMessageId + 1) % Uint32Modulus else v.lastLocalMessageId;
      (v.(lastLocalMessageId := next), [NewChatMessageAdded(content, "Me"), CallSendMessage(v.lastLocalMessageId, content)])
  }

  /** A run of sends, each accepted or not as `sent` says. */
  function SendChatMessages(v: ChatView, contents: seq<string>, sent: seq<bool>): (r: (ChatView, seq<ChatEffect>))
    requires |sent| == |contents| && v.lastLocalMessageId < Uint32Modulus
    ensures r.0.lastLocalMessageId < Uint32Modulus
    decreases |contents|
  {
    if contents == [] then (v, [])
    else
      var (v1, e1) := SendChatMessage(v, contents[0], sent[0]);
      var (v2, e2) := SendChatMessages(v1, contents[1..], sent[1..]);
      (v2, e1 + e2)
  }

  /** The number of accepted sends in a run. */
  function Accepted(sent: seq<bool>): nat {
    if sent == [] then 0 else (if sent[0] then 1 else 0) + Accepted(sent[1..])
  }

  /** With a chat, the local id after a run of sends has moved on by the
      number the chat accepted, modulo 2^32. */
  lemma {:induction false} LocalIdCountsAcceptedSends(v: ChatView, contents: seq<string>, sent: seq<bool>)
    requires |sent| == |contents| && v.lastLocalMessageId < Uint32Modulus && v.hasChat
    ensures SendChatMessages(v, contents, sent).0.lastLocalMessageId == (v.lastLocalMessageId + Accepted(sent)) % Uint32Modulus
    decreases |contents|
  {
    if contents != [] {
      var v1 := SendChatMessage(v, contents[0], sent[0]).0;
      LocalIdCountsAcceptedSends(v1, contents[1..], sent[1..]);
    }
  }

  /** The effect `receivedMessages` has for one message. */
  function Shown(m: Message): ChatEffect {
    NewChatMessageAdded(m.content, m.sender)
  }

  /** `receivedMessages`: the messages of the selected chat are shown, in
      order; those of other chats are dropped. */
  function ReceivedMessages(v: ChatView, ms: seq<Message>): (r: seq<ChatEffect>)
    ensures |r| <= |ms|
    ensures (forall i :: 0 <= i < |ms| ==> ms[i].chatId != v.selected) ==> r == []
    decreases |ms|
  {
    if ms == [] then []
    else (if ms[0].chatId == v.selected then [Shown(ms[0])] else []) + ReceivedMessages(v, ms[1..])
  }

  /** When every message is of the selected chat, every one is shown, in
      order. */
  lemma {:induction false} SelectedChatFullyShown(v: ChatView, ms: seq<Message>)
    requires forall i :: 0 <= i < |ms| ==> ms[i].chatId == v.selected
    ensures |ReceivedMessages(v, ms)| == |ms|
    ensures forall i :: 0 <= i < |ms| ==> ReceivedMessages(v, ms)[i] == Shown(ms[i])
    decreases |ms|
  {
    if ms != [] {
      SelectedChatFullyShown(v, ms[1..]);
    }
  }

  /** Messages arriving in two batches are shown as in one. */
  lemma {:induction false} ReceivedMessagesAppend(v: ChatView, a: seq<Message>, b: seq<Message>)
    ensures ReceivedMessages(v, a + b) == ReceivedMessages(v, a) + ReceivedMessages(v, b)
    decreases |a|
  {
    if a == [] {
      assert a + b == b;
    } else {
      ReceivedMessagesAppend(v, a[1..], b);
      ReceivedMessagesHead(v, a, b);
      Seqs.AppendAssoc(if a[0].chatId == v.selected then [Shown(a[0])] else [],
                       ReceivedMessages(v, a[1..]), ReceivedMessages(v, b));
    }
  }

  lemma ReceivedMessagesHead(v: ChatView, a: seq<Message>, b: seq<Message>)
    requires a != []
    ensures ReceivedMessages(v, a + b)
      == (if a[0].chatId == v.selected then [Shown(a[0])] else []) + ReceivedMessages(v, a[1..] + b)
  {
    assert (a + b)[0] == a[0];
    assert (a + b)[1..] == a[1..] + b;
  }

  /** The number of leading messages that belong to chat `sel`. */
  function InChatPrefix(sel: Uuid, ms: seq<Message>): (k: nat)
    ensures k <= |ms|
    ensures forall i :: 0 <= i < k ==> ms[i].chatId == sel
    ensures k < |ms| ==> ms[k].chatId != sel
    decreases |ms|
  {
    if ms == [] || ms[0].chatId != sel then 0 else 1 + InChatPrefix(sel, ms[1..])
  }

  /** The effect `loadedMessages` has for one message: a message without a
      sender is the user's own. */
  function Loaded(m: Message): ChatEffect {
    LoadedMessagesAdded(m.content, if m.sender == "" then "Me" else m.sender)
  }

  /** `loadedMessages`: shows the page up to the first message of another
      chat, and asks for the next page, before the last message of this one,
      only while more remain and the whole page was of the selected chat. */
  method LoadedMessages(v: ChatView, ms: seq<Message>, hasMore: bool) returns (effects: seq<ChatEffect>)
    ensures var k := InChatPrefix(v.selected, ms);
      var again := ms != [] && hasMore && k == |ms| && v.hasChat;
      && |effects| == k + (if again then 1 else 0)
      && (forall i :: 0 <= i < k ==> effects[i] == Loaded(ms[i]))
      && (again ==> effects[k] == CallLoadMessages(DefaultPageSize, ms[|ms| - 1].messageId))
  {
    effects := [];
    if ms != [] {
      var lastMessageId := ms[|ms| - 1].messageId;
      var more := hasMore;
      var i := 0;
      while i < |ms|
        invariant 0 <= i <= |ms|
        invariant forall j :: 0 <= j < i ==> ms[j].chatId == v.selected
        invariant |effects| == i && forall j :: 0 <= j < i ==> effects[j] == Loaded(ms[j])
        invariant more == hasMore
      {
        if ms[i].chatId != v.selected {
          more := false;
          break;
        }
        effects := effects + [Loaded(ms[i])];
        i := i + 1;
      }
      assert i == InChatPrefix(v.selected, ms) by {
        InChatPrefixIsFirstOther(v.selected, ms, i);
      }
      assert more <==> hasMore && i == |ms|;
      if more && v.hasChat {
        effects := effects + [CallLoadMessages(DefaultPageSize, lastMessageId)];
      }
    }
  }

  /** The prefix length is the first index whose message is of another chat. */
  lemma {:induction false} InChatPrefixIsFirstOther(sel: Uuid, ms: seq<Message>, i: nat)
    requires i <= |ms| && forall j :: 0 <= j < i ==> ms[j].chatId == sel
    requires i < |ms| ==> ms[i].chatId != sel
    ensures InChatPrefix(sel, ms) == i
    decreases i
  {
    if i > 0 {
      InChatPrefixIsFirstOther(sel, ms[1..], i - 1);
    }
  }

  /** `obtainChats`: lists every chat the plugin returns and yields the first
      one's id and title; nothing when there is no chat object, the call
      fails or there are no chats. */
  function ObtainChats(v: ChatView, obtained: Option<seq<Ad.ChatInfo>>): (r: (Uuid, string, seq<ChatEffect>))
    ensures r.0 != NullUuid ==> v.hasChat && obtained.Some? && obtained.value != [] && r.0 == obtained.value[0].chatId
    ensures v.hasChat && obtained.Some? && obtained.value != [] ==> (
      && r.0 == obtained.value[0].chatId
      && r.1 == ChatTitle(obtained.value[0].title, obtained.value[0].chatType, obtained.value[0].chatTypeId))
    ensures !(v.hasChat && obtained.Some? && obtained.value != []) ==> r.0 == NullUuid && r.1 == v.title
    ensures r.2 == if v.hasChat && obtained.Some? then seq(|obtained.value|, i requires 0 <= i < |obtained.value| => NewContactAdded(ToContact(obtained.value[i]))) else []
  {
    if !v.hasChat || obtained.None? then (NullUuid, v.title, [])
    else
      var chats := obtained.value;
      var listed := seq(|chats|, i requires 0 <= i < |chats| => NewContactAdded(ToContact(chats[i])));
      if chats == [] then (NullUuid, v.title, listed)
      else (chats[0].chatId, ChatTitle(chats[0].title, chats[0].chatType, chats[0].chatTypeId), listed)
  }

  /** `selectChat`: the selection follows only a chat the plugin accepted. */
  function SelectChat(v: ChatView, chatId: Uuid, accepted: bool): (r: (ChatView, seq<ChatEffect>))
    ensures r.0 == if v.hasChat && accepted then v.(selected := chatId) else v
    ensures r.1 == if v.hasChat && accepted then [ChatSelected] else []
  {
    if v.hasChat && accepted then (v.(selected := chatId), [ChatSelected]) else (v, [])
  }

  /** The chat part of the communication handler once the agent is reached:
      the first obtained chat becomes the selection (the selection is
      cleared when there is none), and only when the plugin accepts it is it
      announced and the local id restarted. */
  function ChatConnected(v: ChatView, obtained: Option<seq<Ad.ChatInfo>>, selectAccepted: bool): (r: (ChatView, seq<ChatEffect>))
  {
    var (first, title, listed) := ObtainChats(v, obtained);
    var v1 := v.(selected := first, title := title);
    if first != NullUuid && v.hasChat then
      if selectAccepted then (v1.(lastLocalMessageId := 0), listed + [CallSelectChat(first), ChatTitleChanged, ChatSelected])
      else (v1, listed + [CallSelectChat(first)])
    else (v1, listed)
  }

  /** The chat part of the communication handler when the agent is lost. */
  function ChatDisconnected(v: ChatView): (r: (ChatView, seq<ChatEffect>))
    ensures r.0.selected == NullUuid && r.0.title == DefaultTitle
    ensures r.0.hasChat == v.hasChat && r.0.lastLocalMessageId == v.lastLocalMessageId
    ensures r.1 == [ChatTitleChanged, ChatSelected]
  {
    (v.(selected := NullUuid, title := DefaultTitle), [ChatTitleChanged, ChatSelected])
  }

  /** Reaching the agent selects the first chat it reports and restarts the
      local id when the plugin accepts the selection; a failed or empty
      listing leaves no chat selected, whatever was selected before. */
  lemma ConnectedSelectsFirstChat(v: ChatView, obtained: Option<seq<Ad.ChatInfo>>, selectAccepted: bool)
    ensures var r := ChatConnected(v, obtained, selectAccepted);
      var found := v.hasChat && obtained.Some? && obtained.value != [];
      && (found ==> r.0.selected == obtained.value[0].chatId)
      && (!found ==> r.0.selected == NullUuid && r.0.title == v.title && r.0.lastLocalMessageId == v.lastLocalMessageId)
      && (found && obtained.value[0].chatId != NullUuid && selectAccepted ==> r.0.lastLocalMessageId == 0 && r.1[|r.1| - 1] == ChatSelected)
      && (ChatSelected in r.1 <==> found && obtained.value[0].chatId != NullUuid && selectAccepted)
  {
    var r := ChatConnected(v, obtained, selectAccepted);
    var (first, title, listed) := ObtainChats(v, obtained);
    assert ChatSelected !in listed;
  }

  /** After the agent is lost, the next chat created is selected again. */
  lemma DisconnectReenablesAutoSelect(v: ChatView, chatId: Uuid, title: string, t: Ad.ChatType, typeId: nat)
    ensures var w := ChatDisconnected(v).0;
      ChatCreated(w, chatId, title, t, typeId).0.selected == chatId
  {
  }
}
