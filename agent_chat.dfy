/** The agent chat screen of the frontend: relative dates in the chat
    list, the messages kept when a chat is loaded, the model selection, and
    the message list while a reply streams in. */
module AgentChat {
  import opened Wrappers
  import opened Seqs
  import opened Strings

  // ---------------------------------------------------------------------
  // Relative dates
  // ---------------------------------------------------------------------

  const MinuteMs: int := 60000
  const HourMs: int := 3600000
  const DayMs: int := 86400000

  /** How `formatDate` describes a date `diffMs` milliseconds in the past;
      `Absolute` is the month-and-day rendering of the date itself. */
  datatype Ago = JustNow | MinutesAgo(minutes: int) | HoursAgo(hours: int) | DaysAgo(days: int) | Absolute

  /** `formatDate`: whole minutes, hours and days are floored, so a date in
      the future is "Just now". */
  function FormatAgo(diffMs: int): (a: Ago)
    ensures a.JustNow? <==> diffMs < MinuteMs
    ensures a.MinutesAgo? ==> 1 <= a.minutes < 60 && a.minutes * MinuteMs <= diffMs < (a.minutes + 1) * MinuteMs
    ensures a.HoursAgo? ==> 1 <= a.hours < 24 && a.hours * HourMs <= diffMs < (a.hours + 1) * HourMs
    ensures a.DaysAgo? ==> 1 <= a.days < 7 && a.days * DayMs <= diffMs < (a.days + 1) * DayMs
    ensures a.Absolute? <==> diffMs >= 7 * DayMs
  {
    var mins := diffMs / MinuteMs;
    var hours := diffMs / HourMs;
    var days := diffMs / DayMs;
    if mins < 1 then JustNow
    else if mins < 60 then MinutesAgo(mins)
    else if hours < 24 then HoursAgo(hours)
    else if days < 7 then DaysAgo(days)
    else Absolute
  }

  /** The five bands partition the time line: each band holds exactly the
      differences between its bounds. */
  lemma AgoBands(diffMs: int)
    ensures FormatAgo(diffMs).MinutesAgo? <==> MinuteMs <= diffMs < HourMs
    ensures FormatAgo(diffMs).HoursAgo? <==> HourMs <= diffMs < DayMs
    ensures FormatAgo(diffMs).DaysAgo? <==> DayMs <= diffMs < 7 * DayMs
  {
  }

  /** The text shown for a category; `absolute` is the rendered date. A
      relative text is the count in decimal followed by its unit and
      " ago". */
  function AgoText(a: Ago, absolute: string): (t: string)
    ensures a.JustNow? ==> t == "Just now"
    ensures a.Absolute? ==> t == absolute
    ensures a.MinutesAgo? ==> RelativeText(t, if a.minutes >= 0 then a.minutes else 0, "m ago")
    ensures a.HoursAgo? ==> RelativeText(t, if a.hours >= 0 then a.hours else 0, "h ago")
    ensures a.DaysAgo? ==> RelativeText(t, if a.days >= 0 then a.days else 0, "d ago")
  {
    match a
    case JustNow => "Just now"
    case MinutesAgo(m) => Relative(if m >= 0 then m else 0, "m ago")
    case HoursAgo(h) => Relative(if h >= 0 then h else 0, "h ago")
    case DaysAgo(d) => Relative(if d >= 0 then d else 0, "d ago")
    case Absolute => absolute
  }

  /** `t` reads as the number `n` followed by `suffix`. */
  predicate RelativeText(t: string, n: nat, suffix: string) {
    |suffix| < |t| && t[|t| - |suffix|..] == suffix && DigitsValue(t[..|t| - |suffix|]) == n
  }

  function Relative(n: nat, suffix: string): (t: string)
    ensures RelativeText(t, n, suffix)
  {
    var t := Decimal(n) + suffix;
    assert t[..|Decimal(n)|] == Decimal(n) && t[|Decimal(n)|..] == suffix;
    DecimalRoundTrip(n);
    t
  }

  /** A relative text ends in the unit of its band. */
  lemma AgoTextUnit(diffMs: int, absolute: string)
    requires MinuteMs <= diffMs < 7 * DayMs
    ensures var t := AgoText(FormatAgo(diffMs), absolute);
      |t| >= 6 && t[|t| - 4..] == " ago" &&
      t[|t| - 5] == (if diffMs < HourMs then 'm' else if diffMs < DayMs then 'h' else 'd')
  {
  }

  // ---------------------------------------------------------------------
  // Loading a chat
  // ---------------------------------------------------------------------

  /** A chat message as the screen holds it. */
  datatype Message = Message(role: string, content: string)

  /** The `content` field of a loaded element. */
  datatype RawContent = Text(text: string) | NonText

  /** An element of the loaded `messages` array: not an object, or an
      object with an optional `role` and a `content` field. */
  datatype RawMessage = NotObject | Record(role: Option<string>, content: RawContent)

  predicate IsValid(m: RawMessage) {
    m.Record? && m.role.Some? && m.role.value != "" && m.content.Text?
  }

  function AsMessage(m: RawMessage): Message
    requires IsValid(m)
  {
    Message(m.role.value, m.content.text)
  }

  /** The valid elements, in their original order, as messages. */
  function ValidMessages(raw: seq<RawMessage>): (r: seq<Message>)
    ensures |r| <= |raw|
  {
    if |raw| == 0 then []
    else ValidMessages(raw[..|raw| - 1]) + (if IsValid(raw[|raw| - 1]) then [AsMessage(raw[|raw| - 1])] else [])
  }

  /** The valid elements, in order, and nothing else. */
  function ValidRaw(raw: seq<RawMessage>): seq<RawMessage> {
    if |raw| == 0 then [] else ValidRaw(raw[..|raw| - 1]) + (if IsValid(raw[|raw| - 1]) then [raw[|raw| - 1]] else [])
  }

  /** Loading keeps exactly the valid elements, in their original order:
      the result is the valid subsequence, element by element. */
  lemma {:induction false} ValidMessagesInOrder(raw: seq<RawMessage>)
    ensures var v := ValidRaw(raw);
      |ValidMessages(raw)| == |v| &&
      (forall i :: 0 <= i < |v| ==> IsValid(v[i]) && ValidMessages(raw)[i] == AsMessage(v[i])) &&
      (forall m :: m in v <==> m in raw && IsValid(m))
  {
    if |raw| > 0 {
      var init := raw[..|raw| - 1];
      ValidMessagesInOrder(init);
      assert raw == init + [raw[|raw| - 1]];
      var v := ValidRaw(raw);
      assert forall m :: m in raw <==> m in init || m == raw[|raw| - 1];
    }
  }

  /** Appending elements appends their valid messages. */
  lemma {:induction false} ValidMessagesAppend(a: seq<RawMessage>, b: seq<RawMessage>)
    ensures ValidMessages(a + b) == ValidMessages(a) + ValidMessages(b)
  {
    if |b| == 0 {
      assert a + b == a;
    } else {
      var b' := b[..|b| - 1];
      assert (a + b)[..|a + b| - 1] == a + b';
      assert (a + b)[|a + b| - 1] == b[|b| - 1];
      ValidMessagesAppend(a, b');
    }
  }

  /** An array of only valid messages is kept whole. */
  lemma {:induction false} AllValidKept(raw: seq<RawMessage>)
    requires forall i :: 0 <= i < |raw| ==> IsValid(raw[i])
    ensures |ValidMessages(raw)| == |raw|
    ensures forall i :: 0 <= i < |raw| ==> ValidMessages(raw)[i] == AsMessage(raw[i])
  {
    if |raw| > 0 {
      AllValidKept(raw[..|raw| - 1]);
    }
  }

  /** What the server answered to `getChat`: a failure with its message,
      or a response whose `messages` is an array or something else. */
  datatype ChatResponse = LoadFailed(message: Option<string>) | Loaded(messages: Option<seq<RawMessage>>)

  /** The state `loadChat(id)` leaves: messages, current chat, error text. */
  datatype LoadedChat = LoadedChat(messages: seq<Message>, currentChatId: Option<string>,
                                   renderError: Option<string>)

  function LoadChat(id: string, response: ChatResponse): (r: LoadedChat)
    ensures response.LoadFailed? ==> r.messages == [] && r.currentChatId.None? && r.renderError.Some?
    ensures response.Loaded? ==> r.currentChatId == Some(id) && r.renderError.None?
    ensures response.Loaded? && response.messages.None? ==> r.messages == []
    ensures response.Loaded? && response.messages.Some? ==> r.messages == ValidMessages(response.messages.value)
  {
    match response
    case LoadFailed(message) =>
      LoadedChat([], None, Some(if message.Some? && message.value != "" then message.value else "Failed to load chat"))
    case Loaded(messages) =>
      LoadedChat(if messages.Some? then ValidMessages(messages.value) else [], Some(id), None)
  }

  // ---------------------------------------------------------------------
  // Models
  // ---------------------------------------------------------------------

  /** `loadModels`: a selection missing from a non-empty list falls back to
      the first model; an empty list keeps the selection. */
  function SelectModel(names: seq<string>, selected: string): (r: string)
    ensures |names| > 0 ==> r in names
    ensures selected in names || |names| == 0 ==> r == selected
    ensures |names| > 0 && selected !in names ==> r == names[0]
  {
    if |names| > 0 && selected !in names then names[0] else selected
  }

  /** Loading the same list again keeps the selection. */
  lemma SelectModelStable(names: seq<string>, selected: string)
    ensures SelectModel(names, SelectModel(names, selected)) == SelectModel(names, selected)
  {
  }

  // ---------------------------------------------------------------------
  // Sending and streaming
  // ---------------------------------------------------------------------

  const ErrorText: string := "❌ Error: Failed to get response"

  /** What `handleSend` passes to the stream: the conversation including
      the new user message, and the chat the closure captured. */
  datatype SendRequest = SendRequest(model: string, messages: seq<Message>, chatId: Option<string>)

  /** The last message's content replaced by `content`, when it is an
      assistant message. */
  function ReplaceLast(ms: seq<Message>, content: string): (r: seq<Message>)
    ensures |r| == |ms|
    ensures |ms| > 0 && ms[|ms| - 1].role == "assistant" ==>
      |r| == |ms| && r[..|ms| - 1] == ms[..|ms| - 1] && r[|ms| - 1] == Message("assistant", content)
    ensures !(|ms| > 0 && ms[|ms| - 1].role == "assistant") ==> r == ms
  {
    if |ms| > 0 && ms[|ms| - 1].role == "assistant" then ms[..|ms| - 1] + [Message("assistant", content)]
    else ms
  }

  /** The error text replaces an empty assistant reply only. */
  function MarkFailed(ms: seq<Message>): (r: seq<Message>)
    ensures |r| == |ms|
    ensures |ms| > 0 && ms[|ms| - 1].role == "assistant" && ms[|ms| - 1].content == "" ==>
      r == ms[..|ms| - 1] + [Message("assistant", ErrorText)]
    ensures !(|ms| > 0 && ms[|ms| - 1].role == "assistant" && ms[|ms| - 1].content == "") ==> r == ms
  {
    if |ms| > 0 && ms[|ms| - 1].role == "assistant" && ms[|ms| - 1].content == "" then
      ms[..|ms| - 1] + [Message("assistant", ErrorText)]
    else ms
  }

  /** Chunks carry the whole reply so far, so the last one decides. */
  lemma ReplaceLastTwice(ms: seq<Message>, a: string, b: string)
    ensures ReplaceLast(ReplaceLast(ms, a), b) == ReplaceLast(ms, b)
  {
  }

  /** A reply that received any content is never overwritten by an error. */
  lemma ErrorKeepsContent(ms: seq<Message>, content: string)
    requires content != ""
    ensures MarkFailed(ReplaceLast(ms, content)) == ReplaceLast(ms, content)
  {
  }

  /** The screen's state while chatting. */
  class ChatScreen {
    var messages: seq<Message>
    var input: string
    var isStreaming: bool
    var isConnected: bool
    var currentChatId: Option<string>
    var selectedModel: string
    var models: seq<string>
    /** How often the chat list was asked to reload. */
    var chatListReloads: nat

    constructor ()
      ensures messages == [] && input == "" && !isStreaming && !isConnected
      ensures currentChatId.None? && selectedModel == "llama3.2" && models == [] && chatListReloads == 0
    {
      messages := [];
      input := "";
      isStreaming := false;
      isConnected := false;
      currentChatId := None;
      selectedModel := "llama3.2";
      models := [];
      chatListReloads := 0;
    }

    /** `loadModels` with the names the server listed. */
    method LoadModels(names: seq<string>)
      modifies this
      ensures models == names && selectedModel == SelectModel(names, old(selectedModel))
      ensures messages == old(messages) && input == old(input) && isStreaming == old(isStreaming)
      ensures currentChatId == old(currentChatId) && chatListReloads == old(chatListReloads)
      ensures isConnected == old(isConnected)
    {
      models := names;
      if |names| > 0 && selectedModel !in names {
        selectedModel := names[0];
      }
    }

    /** `handleSend`: nothing happens for blank input, while streaming or
        when disconnected; otherwise the trimmed input is appended as a user
        message, then an empty assistant placeholder, and the request with
        the conversation up to the user message is returned. */
    method HandleSend() returns (request: Option<SendRequest>)
      modifies this
      ensures Trim(old(input)) == "" || old(isStreaming) || !old(isConnected) ==>
        request.None? && messages == old(messages) && input == old(input) && isStreaming == old(isStreaming)
      ensures !(Trim(old(input)) == "" || old(isStreaming) || !old(isConnected)) ==>
        var sent := old(messages) + [Message("user", Trim(old(input)))];
        request == Some(SendRequest(old(selectedModel), sent, old(currentChatId))) &&
        messages == sent + [Message("assistant", "")] && input == "" && isStreaming
      ensures isConnected == old(isConnected) && currentChatId == old(currentChatId)
      ensures selectedModel == old(selectedModel) && models == old(models)
      ensures chatListReloads == old(chatListReloads)
    {
      var text := Trim(input);
      if text == "" || isStreaming || !isConnected {
        return None;
      }
      var sent := messages + [Message("user", text)];
      messages := sent;
      input := "";
      isStreaming := true;
      messages := sent + [Message("assistant", "")];
      request := Some(SendRequest(selectedModel, sent, currentChatId));
    }

    /** The chunk callback. `captured` is the chat id the callback closed
        over when the message was sent, so a new chat adopts the received
        id (and reloads the list) on every chunk that carries one. */
    method OnChunk(chunk: string, receivedChatId: Option<string>, captured: Option<string>)
      modifies this
      ensures messages == ReplaceLast(old(messages), chunk)
      ensures Truthy(receivedChatId) && !Truthy(captured) ==>
        currentChatId == receivedChatId && chatListReloads == old(chatListReloads) + 1
      ensures !(Truthy(receivedChatId) && !Truthy(captured)) ==>
        currentChatId == old(currentChatId) && chatListReloads == old(chatListReloads)
      ensures input == old(input) && isStreaming == old(isStreaming) && isConnected == old(isConnected)
      ensures selectedModel == old(selectedModel) && models == old(models)
    {
      if Truthy(receivedChatId) && !Truthy(captured) {
        currentChatId := receivedChatId;
        chatListReloads := chatListReloads + 1;
      }
      if |messages| > 0 && messages[|messages| - 1].role == "assistant" {
        messages := messages[..|messages| - 1] + [Message("assistant", chunk)];
      }
    }

    /** The completion callback. */
    method OnComplete()
      modifies this
      ensures !isStreaming && chatListReloads == old(chatListReloads) + 1
      ensures messages == old(messages) && input == old(input) && isConnected == old(isConnected)
      ensures currentChatId == old(currentChatId)
      ensures selectedModel == old(selectedModel) && models == old(models)
    {
      isStreaming := false;
      chatListReloads := chatListReloads + 1;
    }

    /** The error callback: streaming stops and an empty reply shows the
        error text. */
    method OnError()
      modifies this
      ensures !isStreaming && messages == MarkFailed(old(messages))
      ensures input == old(input) && isConnected == old(isConnected)
      ensures currentChatId == old(currentChatId) && chatListReloads == old(chatListReloads)
      ensures selectedModel == old(selectedModel) && models == old(models)
    {
      isStreaming := false;
      if |messages| > 0 && messages[|messages| - 1].role == "assistant" && messages[|messages| - 1].content == "" {
        messages := messages[..|messages| - 1] + [Message("assistant", ErrorText)];
      }
    }
  }

  /** After a send, the streamed chunks replace only the placeholder: the
      conversation sent stays as it was and the reply is the last chunk. */
  lemma {:induction false} ChunksFillPlaceholder(sent: seq<Message>, chunks: seq<string>)
    requires |chunks| > 0
    ensures Replies(sent + [Message("assistant", "")], chunks) == sent + [Message("assistant", chunks[|chunks| - 1])]
  {
    if |chunks| > 1 {
      ChunksFillPlaceholder(sent, chunks[..|chunks| - 1]);
    } else {
      assert (sent + [Message("assistant", "")])[..|sent|] == sent;
    }
    assert (sent + [Message("assistant", chunks[|chunks| - 1])])[..|sent|] == sent;
  }

  /** The message list after each chunk in turn. */
  function Replies(ms: seq<Message>, chunks: seq<string>): seq<Message> {
    if |chunks| == 0 then ms else ReplaceLast(Replies(ms, chunks[..|chunks| - 1]), chunks[|chunks| - 1])
  }
}
