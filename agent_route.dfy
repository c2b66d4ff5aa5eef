/** The agent chat routes of the backend: the registry of active sessions
    and streams, chat title generation, and the accumulation of a streamed
    model reply into the payloads written to the client and the assistant
    message saved at the end. */
module AgentRoute {
  import opened Wrappers
  import opened Strings

  // ---------------------------------------------------------------------
  // Sessions and streams
  // ---------------------------------------------------------------------

  /** Sessions older than five minutes count as stale. */
  const StaleAfter: int := 5 * 60 * 1000

  /** An entry of `activeSessions`: the chat and when it started (ms). */
  datatype Session = Session(chatId: string, startTime: int)

  predicate Fresh(s: Session, now: int) {
    now - s.startTime <= StaleAfter
  }

  /** The sessions a sweep at `now` keeps. */
  function Live(sessions: map<string, Session>, now: int): (r: map<string, Session>)
    ensures r.Keys <= sessions.Keys
    ensures forall u :: u in r ==> r[u] == sessions[u] && Fresh(r[u], now)
  {
    map u | u in sessions && Fresh(sessions[u], now) :: sessions[u]
  }

  /** Sweeping twice at the same time removes nothing more, and a sweep at a
      later time subsumes an earlier one. */
  lemma {:induction false} LaterSweepSubsumes(sessions: map<string, Session>, t1: int, t2: int)
    requires t1 <= t2
    ensures Live(Live(sessions, t1), t2) == Live(sessions, t2)
    ensures Live(Live(sessions, t2), t2) == Live(sessions, t2)
  {
    var a := Live(Live(sessions, t1), t2);
    var b := Live(sessions, t2);
    forall u ensures u in a <==> u in b {
      if u in b {
        assert Fresh(sessions[u], t1);
      }
    }
    assert a.Keys == b.Keys;
    assert a == b;
    var c := Live(Live(sessions, t2), t2);
    assert c.Keys == b.Keys;
    assert c == b;
  }

  /** Why a chat request failed inside the handler. */
  datatype ChatFailure = Cancelled | ConnectionRefused | OtherFailure

  /** The status the outer `catch` of the chat handler answers with. */
  function FailureStatus(f: ChatFailure): (e: HttpError)
    ensures e.status == 499 <==> f == Cancelled
    ensures e.status == 503 <==> f == ConnectionRefused
    ensures f == OtherFailure ==> e.status == 500
  {
    match f
    case Cancelled => HttpError(499, "Request cancelled")
    case ConnectionRefused => HttpError(503, "Ollama service unavailable")
    case OtherFailure => HttpError(500, "Chat failed")
  }

  /** A message of the conversation sent by the client. */
  datatype ChatMessage = ChatMessage(role: string, content: string)

  /** The body of `POST /chat` as far as validation looks at it:
      `messages` is `None` when absent or not an array. */
  datatype ChatRequest = ChatRequest(userId: Option<string>, messages: Option<seq<ChatMessage>>,
                                     chatId: Option<string>)

  /** The checks before any work: a user, then a non-empty message array. */
  function ValidateChat(req: ChatRequest): (e: Option<HttpError>)
    ensures e.None? <==> Truthy(req.userId) && req.messages.Some? && |req.messages.value| > 0
    ensures !Truthy(req.userId) ==> e == Some(HttpError(401, "Unauthorized"))
    ensures Truthy(req.userId) && e.Some? ==> e.value.status == 400
  {
    if !Truthy(req.userId) then Some(HttpError(401, "Unauthorized"))
    else if req.messages.None? || |req.messages.value| == 0 then
      Some(HttpError(400, "Messages array required"))
    else None
  }

  /** An assistant message stored in `agent_messages`. */
  datatype AgentMessage = AgentMessage(chatId: string, role: string, content: string,
                                       thinking: Option<string>)

  /** The module-level maps of the route together with the message
      collection the stream handlers write to. */
  class AgentServer {
    var activeSessions: map<string, Session>
    /** The ids in `activeStreams`; their cancel tokens are not modelled. */
    var activeStreams: set<string>
    /** The streams whose cancel token was fired, in order. */
    var cancelled: seq<string>
    var agentMessages: seq<AgentMessage>

    constructor ()
      ensures activeSessions == map[] && activeStreams == {} && cancelled == [] && agentMessages == []
    {
      activeSessions := map[];
      activeStreams := {};
      cancelled := [];
      agentMessages := [];
    }

    /** `GET /active-sessions` at time `now`: stale sessions are deleted
        first, then the remaining ones are counted. */
    method ActiveSessions(now: int) returns (count: nat, hasSessions: bool)
      modifies this
      ensures activeSessions == Live(old(activeSessions), now)
      ensures forall u :: u in activeSessions ==> now - activeSessions[u].startTime <= StaleAfter
      ensures count == |activeSessions| && (hasSessions <==> count > 0)
      ensures activeStreams == old(activeStreams) && cancelled == old(cancelled)
      ensures agentMessages == old(agentMessages)
    {
      ghost var orig := activeSessions;
      var keys := activeSessions.Keys;
      while keys != {}
        invariant keys <= orig.Keys
        invariant activeSessions == map u | u in orig && (u in keys || Fresh(orig[u], now)) :: orig[u]
        invariant activeStreams == old(activeStreams) && cancelled == old(cancelled)
        invariant agentMessages == old(agentMessages)
        decreases |keys|
      {
        var u :| u in keys;
        if now - activeSessions[u].startTime > StaleAfter {
          activeSessions := activeSessions - {u};
        }
        keys := keys - {u};
      }
      count := |activeSessions|;
      hasSessions := count > 0;
    }

    /** The start of `POST /chat`: after validation the user's session is
        marked active, under the requested chat or "new". */
    method BeginChat(req: ChatRequest, now: int) returns (e: Option<HttpError>)
      modifies this
      ensures e == ValidateChat(req)
      ensures e.Some? ==> activeSessions == old(activeSessions)
      ensures e.None? ==>
        activeSessions == old(activeSessions)[req.userId.value :=
          Session(if Truthy(req.chatId) then req.chatId.value else "new", now)]
      ensures activeStreams == old(activeStreams) && cancelled == old(cancelled)
      ensures agentMessages == old(agentMessages)
    {
      e := ValidateChat(req);
      if e.None? {
        var chatId := if Truthy(req.chatId) then req.chatId.value else "new";
        activeSessions := activeSessions[req.userId.value := Session(chatId, now)];
      }
    }

    /** The stream of a chat is registered under `streamId` (the chat id, a
        dash and the clock) before the model is called. */
    method RegisterStream(streamId: string)
      modifies this
      ensures activeStreams == old(activeStreams) + {streamId}
      ensures activeSessions == old(activeSessions) && cancelled == old(cancelled)
      ensures agentMessages == old(agentMessages)
    {
      activeStreams := activeStreams + {streamId};
    }

    /** The outer `catch` of the chat handler: the user's session is
        dropped and the failure mapped to a status. */
    method FailChat(userId: Option<string>, f: ChatFailure) returns (e: HttpError)
      modifies this
      ensures e == FailureStatus(f)
      ensures activeSessions == if Truthy(userId) then old(activeSessions) - {userId.value} else old(activeSessions)
      ensures activeStreams == old(activeStreams) && cancelled == old(cancelled)
      ensures agentMessages == old(agentMessages)
    {
      if Truthy(userId) {
        activeSessions := activeSessions - {userId.value};
      }
      e := FailureStatus(f);
    }

    /** `POST /chat/stop`: a stream id is required; a known stream is
        cancelled and removed together with the caller's session; an unknown
        one is answered with 404 and nothing changes. */
    method Stop(streamId: Option<string>, userId: Option<string>) returns (e: Option<HttpError>)
      modifies this
      ensures !Truthy(streamId) ==>
        e == Some(HttpError(400, "Stream ID required")) && activeSessions == old(activeSessions) &&
        activeStreams == old(activeStreams) && cancelled == old(cancelled)
      ensures Truthy(streamId) && streamId.value in old(activeStreams) ==>
        e.None? && activeStreams == old(activeStreams) - {streamId.value} &&
        cancelled == old(cancelled) + [streamId.value] &&
        activeSessions == (if Truthy(userId) then old(activeSessions) - {userId.value} else old(activeSessions))
      ensures Truthy(streamId) && streamId.value !in old(activeStreams) ==>
        e == Some(HttpError(404, "Stream not found")) && activeSessions == old(activeSessions) &&
        activeStreams == old(activeStreams) && cancelled == old(cancelled)
      ensures agentMessages == old(agentMessages)
    {
      if !Truthy(streamId) {
        return Some(HttpError(400, "Stream ID required"));
      }
      var id := streamId.value;
      if id in activeStreams {
        cancelled := cancelled + [id];
        activeStreams := activeStreams - {id};
        if Truthy(userId) {
          activeSessions := activeSessions - {userId.value};
        }
        return None;
      }
      e := Some(HttpError(404, "Stream not found"));
    }
  }

  // ---------------------------------------------------------------------
  // Chat titles
  // ---------------------------------------------------------------------

  const TitleLength: nat := 50

  predicate IsQuote(c: char) { c == '"' || c == '\'' }

  /** `s.slice(0, n)` */
  function Cut(s: string, n: nat): (r: string)
    ensures |r| <= n && |r| <= |s|
    ensures r <= s
    ensures |s| <= n ==> r == s
  {
    if |s| <= n then s else s[..n]
  }

  /** `s.replace(/^["']|["']$/g, '')`: one quote at the start and one at
      the end are removed; a lone quote is removed once. */
  function StripQuotes(s: string): (r: string)
    ensures |s| - 2 <= |r| <= |s|
    ensures |s| > 0 && !IsQuote(s[0]) && !IsQuote(s[|s| - 1]) ==> r == s
  {
    var t := if |s| > 0 && IsQuote(s[0]) then s[1..] else s;
    if |t| > 0 && IsQuote(t[|t| - 1]) then t[..|t| - 1] else t
  }

  /** Removing the quotes around a quoted text gives the text back, quotes
      inside it included. */
  lemma Unquote(open: char, t: string, close: char)
    requires IsQuote(open) && IsQuote(close)
    ensures StripQuotes([open] + t + [close]) == t
  {
    var s := [open] + t + [close];
    assert s[1..] == t + [close];
    assert (t + [close])[..|t|] == t;
  }

  /** Only one quote comes off each end. */
  lemma UnquoteOnce(t: string)
    requires |t| > 0 && !IsQuote(t[0]) && !IsQuote(t[|t| - 1])
    ensures StripQuotes("\"\"" + t + "''") == "\"" + t + "'"
  {
    var s := "\"\"" + t + "''";
    assert s[1..] == "\"" + t + "''";
    assert ("\"" + t + "''")[..|t| + 2] == "\"" + t + "'";
  }

  /** The title made from the model's reply. */
  function CleanTitle(generated: string): (r: string)
    ensures |r| <= TitleLength
    ensures r <= StripQuotes(Trim(generated))
  {
    Cut(StripQuotes(Trim(generated)), TitleLength)
  }

  /** `messages.find(m => m.role === 'user')?.content` */
  function FirstUserContent(messages: seq<ChatMessage>): (r: Option<string>)
    ensures r.Some? <==> exists i :: 0 <= i < |messages| && messages[i].role == "user"
    ensures r.Some? ==>
      (exists i :: 0 <= i < |messages| && messages[i].role == "user" &&
         messages[i].content == r.value && forall j :: 0 <= j < i ==> messages[j].role != "user")
  {
    if |messages| == 0 then None
    else if messages[0].role == "user" then Some(messages[0].content)
    else
      var r := FirstUserContent(messages[1..]);
      assert forall i :: 0 < i < |messages| ==> messages[i] == messages[1..][i - 1];
      if r.Some? then
        ghost var i :| 0 <= i < |messages[1..]| && messages[1..][i].role == "user" &&
          messages[1..][i].content == r.value && forall j :: 0 <= j < i ==> messages[1..][j].role != "user";
        assert messages[i + 1] == messages[1..][i];
        assert forall j :: 0 < j < i + 1 ==> messages[j] == messages[1..][j - 1];
        r
      else r
  }

  /** The outcome of asking the model for a title: the request fails, or it
      answers with an optional `message.content`. */
  datatype TitleReply = RequestFailed | Answered(content: Option<string>)

  /** `generateChatTitle`: the cleaned answer, else the start of the first
      user message; when the request fails, the start of the first user
      message or "New Chat". */
  function GenerateChatTitle(messages: seq<ChatMessage>, reply: TitleReply): (title: string)
    ensures |title| <= TitleLength
    ensures reply.Answered? && reply.content.Some? && CleanTitle(reply.content.value) != "" ==>
      title == CleanTitle(reply.content.value)
    ensures reply.Answered? && (reply.content.None? || CleanTitle(reply.content.value) == "") ==>
      title == Cut(FirstUserContent(messages).GetOr(""), TitleLength)
    ensures reply.RequestFailed? && Truthy(FirstUserContent(messages)) ==>
      title == Cut(FirstUserContent(messages).value, TitleLength)
    ensures reply.RequestFailed? && !Truthy(FirstUserContent(messages)) ==> title == "New Chat"
  {
    var first := FirstUserContent(messages);
    match reply
    case Answered(content) =>
      var clean := if content.Some? then CleanTitle(content.value) else "";
      if clean != "" then clean else Cut(first.GetOr(""), TitleLength)
    case RequestFailed =>
      Cut(if Truthy(first) then first.value else "New Chat", TitleLength)
  }

  /** The title stored for a new chat: a title of full length gets "...". */
  function StoredTitle(title: string): (r: string)
    ensures r == title || r == title + "..."
  {
    if |title| == TitleLength then title + "..." else title
  }

  /** A stored title starts with the generated one, is at most 53
      characters long, and ends in an added "..." exactly when the generated
      title has 50 characters. */
  lemma StoredTitleSuffix(messages: seq<ChatMessage>, reply: TitleReply)
    ensures var t := GenerateChatTitle(messages, reply);
      StoredTitle(t)[..|t|] == t && |StoredTitle(t)| <= TitleLength + 3 &&
      (StoredTitle(t) == t + "..." <==> |t| == TitleLength) &&
      (StoredTitle(t) == t <==> |t| < TitleLength)
  {
    var t := GenerateChatTitle(messages, reply);
    if |t| == TitleLength {
      assert StoredTitle(t) == t + "...";
      assert (t + "...")[..|t|] == t;
      assert |t + "..."| != |t|;
    } else {
      assert StoredTitle(t) == t;
      assert |t + "..."| != |t|;
    }
  }

  /** A model answer that is a short quoted title becomes that title. */
  lemma QuotedAnswer(messages: seq<ChatMessage>, open: char, t: string, close: char)
    requires IsQuote(open) && IsQuote(close)
    requires 0 < |t| <= TitleLength && !IsSpace(open) && !IsSpace(close)
    requires Trim([open] + t + [close]) == [open] + t + [close]
    ensures GenerateChatTitle(messages, Answered(Some([open] + t + [close]))) == t
  {
    Unquote(open, t, close);
  }

  // ---------------------------------------------------------------------
  // Streaming the reply
  // ---------------------------------------------------------------------

  /** A parsed line of the model's stream: `message.content`,
      `message.thinking` and `done`. */
  datatype ModelChunk = ModelChunk(content: Option<string>, thinking: Option<string>, done: bool)

  /** A line written to the client: `thinking.content` (absent when
      `None`), `message.content`, `done` and `chatId`. */
  datatype Payload = Payload(thinking: Option<string>, message: string, done: bool, chatId: string)

  /** The closure variables of a stream and what has been written. */
  datatype StreamState = StreamState(fullText: string, fullThinking: string, isComplete: bool,
                                     written: seq<Payload>)

  const Initial: StreamState := StreamState("", "", false, [])

  function TextOf(s: Option<string>): string {
    if s.Some? then s.value else ""
  }

  /** One parsed chunk: thinking is accumulated and a thinking payload
      written; then content is accumulated and a content payload written;
      a done flag completes the stream. */
  function Feed(st: StreamState, m: ModelChunk, chatId: string): (r: StreamState)
    ensures r.fullText == st.fullText + TextOf(m.content)
    ensures r.fullThinking == st.fullThinking + TextOf(m.thinking)
    ensures r.isComplete == (st.isComplete || m.done)
    ensures |st.written| <= |r.written| && r.written[..|st.written|] == st.written
  {
    var thought := if Truthy(m.thinking) then st.fullThinking + m.thinking.value else st.fullThinking;
    var w1 := if Truthy(m.thinking) then st.written + [Payload(Some(thought), st.fullText, false, chatId)]
              else st.written;
    var text := if Truthy(m.content) then st.fullText + m.content.value else st.fullText;
    var w2 := if Truthy(m.content) then
                w1 + [Payload(if thought != "" then Some(thought) else None, text, m.done, chatId)]
              else w1;
    assert w2[..|st.written|] == st.written by {
      assert w1[..|st.written|] == st.written;
    }
    StreamState(text, thought, st.isComplete || m.done, w2)
  }

  function FeedAll(st: StreamState, ms: seq<ModelChunk>, chatId: string): StreamState {
    if |ms| == 0 then st else Feed(FeedAll(st, ms[..|ms| - 1], chatId), ms[|ms| - 1], chatId)
  }

  /** The content pieces in order. */
  function Contents(ms: seq<ModelChunk>): string {
    if |ms| == 0 then "" else Contents(ms[..|ms| - 1]) + TextOf(ms[|ms| - 1].content)
  }

  /** The thinking pieces in order. */
  function Thoughts(ms: seq<ModelChunk>): string {
    if |ms| == 0 then "" else Thoughts(ms[..|ms| - 1]) + TextOf(ms[|ms| - 1].thinking)
  }

  /** The non-blank lines, `lines.filter(line => line.trim())`. */
  function NonBlank(lines: seq<string>): (r: seq<string>)
    ensures |r| <= |lines|
    ensures forall i :: 0 <= i < |r| ==> Trim(r[i]) != ""
  {
    if |lines| == 0 then []
    else NonBlank(lines[..|lines| - 1]) + (if Trim(lines[|lines| - 1]) != "" then [lines[|lines| - 1]] else [])
  }

  /** The lines that parse, in order; the others are logged and skipped. */
  function Parsed(lines: seq<string>, parse: string -> Option<ModelChunk>): (r: seq<ModelChunk>)
    ensures |r| <= |lines|
  {
    if |lines| == 0 then []
    else
      var m := parse(lines[|lines| - 1]);
      Parsed(lines[..|lines| - 1], parse) + (if m.Some? then [m.value] else [])
  }

  /** The chunks of one `data` event; each event is split on its own. */
  function ChunkPieces(chunk: string, parse: string -> Option<ModelChunk>): seq<ModelChunk> {
    Parsed(ChunkLines(chunk), parse)
  }

  /** `chunk.toString().split('\n').filter(line => line.trim())` */
  function ChunkLines(chunk: string): seq<string> {
    NonBlank(Split(chunk, '\n'))
  }

  /** What the end of the stream saves: the reply, with the thinking when
      there is any, followed by `suffix`. */
  function ReplyMessage(st: StreamState, chatId: string, suffix: string): (m: AgentMessage)
    ensures m.role == "assistant" && m.chatId == chatId && m.content == st.fullText + suffix
    ensures m.thinking.Some? <==> st.fullThinking != ""
    ensures m.thinking.Some? ==> m.thinking.value == st.fullThinking
  {
    AgentMessage(chatId, "assistant", st.fullText + suffix,
                 if st.fullThinking != "" then Some(st.fullThinking) else None)
  }

  const Interrupted: string := "\n\n[Stream interrupted]"

  /** What `end` saves: the reply, when anything was received. */
  function SavedOnEnd(st: StreamState, chatId: string): (r: Option<AgentMessage>)
    ensures r.Some? <==> st.fullText != "" || st.fullThinking != ""
    ensures r.Some? ==> r.value.content == st.fullText
  {
    if st.fullText != "" || st.fullThinking != "" then Some(ReplyMessage(st, chatId, "")) else None
  }

  /** What `error` saves: the reply marked as interrupted. */
  function SavedOnError(st: StreamState, chatId: string): (r: Option<AgentMessage>)
    ensures r.Some? <==> st.fullText != "" || st.fullThinking != ""
    ensures r.Some? ==> r.value.content == st.fullText + "\n\n[Stream interrupted]"
  {
    if st.fullText != "" || st.fullThinking != "" then Some(ReplyMessage(st, chatId, Interrupted)) else None
  }

  /** What a client disconnect saves: the partial reply of an incomplete
      stream. */
  function SavedOnClose(st: StreamState, chatId: string): (r: Option<AgentMessage>)
    ensures r.Some? <==> !st.isComplete && (st.fullText != "" || st.fullThinking != "")
  {
    if !st.isComplete && (st.fullText != "" || st.fullThinking != "") then Some(ReplyMessage(st, chatId, ""))
    else None
  }

  function Saved(m: Option<AgentMessage>): seq<AgentMessage> {
    if m.Some? then [m.value] else []
  }

  /** The full text and thinking are the concatenated pieces, and the stream
      is complete exactly when some chunk carried the done flag. */
  lemma {:induction false} FeedAllTotals(st: StreamState, ms: seq<ModelChunk>, chatId: string)
    ensures FeedAll(st, ms, chatId).fullText == st.fullText + Contents(ms)
    ensures FeedAll(st, ms, chatId).fullThinking == st.fullThinking + Thoughts(ms)
    ensures FeedAll(st, ms, chatId).isComplete <==> st.isComplete || exists i :: 0 <= i < |ms| && ms[i].done
  {
    if |ms| > 0 {
      var init := ms[..|ms| - 1];
      FeedAllTotals(st, init, chatId);
      Associative(st.fullText, Contents(init), TextOf(ms[|ms| - 1].content));
      Associative(st.fullThinking, Thoughts(init), TextOf(ms[|ms| - 1].thinking));
      if FeedAll(st, ms, chatId).isComplete && !st.isComplete && !ms[|ms| - 1].done {
        var i :| 0 <= i < |init| && init[i].done;
        assert ms[i] == init[i];
      }
      if exists i :: 0 <= i < |ms| && ms[i].done {
        var i :| 0 <= i < |ms| && ms[i].done;
        if i < |init| {
          assert init[i] == ms[i];
        }
      }
    }
  }

  lemma Associative<T>(a: seq<T>, b: seq<T>, c: seq<T>)
    ensures a + b + c == a + (b + c)
  {
  }

  /** The content is empty exactly when no chunk carried a non-empty piece. */
  lemma {:induction false} ContentsEmpty(ms: seq<ModelChunk>)
    ensures Contents(ms) == "" <==> forall i :: 0 <= i < |ms| ==> !Truthy(ms[i].content)
  {
    if |ms| > 0 {
      var init := ms[..|ms| - 1];
      ContentsEmpty(init);
      assert forall i :: 0 <= i < |init| ==> init[i] == ms[i];
    }
  }

  /** The thinking is empty exactly when no chunk carried a non-empty piece. */
  lemma {:induction false} ThoughtsEmpty(ms: seq<ModelChunk>)
    ensures Thoughts(ms) == "" <==> forall i :: 0 <= i < |ms| ==> !Truthy(ms[i].thinking)
  {
    if |ms| > 0 {
      var init := ms[..|ms| - 1];
      ThoughtsEmpty(init);
      assert forall i :: 0 <= i < |init| ==> init[i] == ms[i];
    }
  }

  /** A payload matches the stream so far: its text is that of the first
      `j` chunks, and so is its thinking when it carries any. */
  predicate TextSoFar(p: Payload, ms: seq<ModelChunk>) {
    exists j :: 0 <= j <= |ms| && p.message == Contents(ms[..j])
  }

  predicate ThinkingSoFar(p: Payload, ms: seq<ModelChunk>) {
    p.thinking.Some? ==> exists j :: 0 <= j <= |ms| && p.thinking.value == Thoughts(ms[..j])
  }

  /** Every payload written carries the full text received up to some
      chunk, and the thinking received up to some chunk. */
  lemma {:induction false} PayloadsCarrySoFar(ms: seq<ModelChunk>, chatId: string)
    ensures forall k :: 0 <= k < |FeedAll(Initial, ms, chatId).written| ==>
      var p := FeedAll(Initial, ms, chatId).written[k];
      p.chatId == chatId && TextSoFar(p, ms) && ThinkingSoFar(p, ms)
  {
    if |ms| > 0 {
      var init := ms[..|ms| - 1];
      PayloadsCarrySoFar(init, chatId);
      var st := FeedAll(Initial, init, chatId);
      FeedAllTotals(Initial, init, chatId);
      var w := FeedAll(Initial, ms, chatId).written;
      forall k | 0 <= k < |w|
        ensures w[k].chatId == chatId && TextSoFar(w[k], ms) && ThinkingSoFar(w[k], ms)
      {
        if k < |st.written| {
          assert w[k] == st.written[k];
          SoFarExtends(st.written[k], ms);
        } else {
          NewPayload(st, ms[|ms| - 1], chatId, k);
          assert ms[..|ms|] == ms;
          assert w[k].message == Contents(ms[..|ms| - 1]) || w[k].message == Contents(ms[..|ms|]);
          assert w[k].thinking.Some? ==> w[k].thinking.value == Thoughts(ms[..|ms|]);
        }
      }
    }
  }

  /** A payload that matched a prefix still matches after one more chunk. */
  lemma SoFarExtends(p: Payload, ms: seq<ModelChunk>)
    requires |ms| > 0
    requires TextSoFar(p, ms[..|ms| - 1]) && ThinkingSoFar(p, ms[..|ms| - 1])
    ensures TextSoFar(p, ms) && ThinkingSoFar(p, ms)
  {
    var init := ms[..|ms| - 1];
    var j :| 0 <= j <= |init| && p.message == Contents(init[..j]);
    assert init[..j] == ms[..j];
    if p.thinking.Some? {
      var j' :| 0 <= j' <= |init| && p.thinking.value == Thoughts(init[..j']);
      assert init[..j'] == ms[..j'];
    }
  }

  /** The payloads one chunk adds carry the text before or after it and the
      thinking after it. */
  lemma NewPayload(st: StreamState, m: ModelChunk, chatId: string, k: nat)
    requires |st.written| <= k < |Feed(st, m, chatId).written|
    ensures var p := Feed(st, m, chatId).written[k];
      p.chatId == chatId &&
      (p.message == st.fullText || p.message == st.fullText + TextOf(m.content)) &&
      (p.thinking.Some? ==> p.thinking.value == st.fullThinking + TextOf(m.thinking))
  {
  }

  /** A chunk with content is answered by a payload carrying the whole text
      so far, with the chunk's done flag. */
  lemma LastPayloadIsFullText(ms: seq<ModelChunk>, chatId: string)
    requires |ms| > 0 && Truthy(ms[|ms| - 1].content)
    ensures var st := FeedAll(Initial, ms, chatId);
      |st.written| > 0 && st.written[|st.written| - 1].message == Contents(ms) &&
      st.written[|st.written| - 1].done == ms[|ms| - 1].done
  {
    FeedAllTotals(Initial, ms, chatId);
  }

  /** The end of a stream saves a message exactly when some chunk carried
      non-empty content or thinking. */
  lemma SavedIffReceived(ms: seq<ModelChunk>, chatId: string)
    ensures SavedOnEnd(FeedAll(Initial, ms, chatId), chatId).Some? <==>
      exists i :: 0 <= i < |ms| && (Truthy(ms[i].content) || Truthy(ms[i].thinking))
  {
    FeedAllTotals(Initial, ms, chatId);
    ContentsEmpty(ms);
    ThoughtsEmpty(ms);
  }

  /** An interrupted stream saves what a normal end would, marked. */
  lemma ErrorMarksReply(st: StreamState, chatId: string)
    ensures SavedOnError(st, chatId).Some? <==> SavedOnEnd(st, chatId).Some?
    ensures SavedOnError(st, chatId).Some? ==>
      SavedOnError(st, chatId).value ==
        SavedOnEnd(st, chatId).value.(content := SavedOnEnd(st, chatId).value.content + Interrupted)
  {
  }

  /** A disconnect after a done flag saves nothing; before one it saves
      what a normal end would. */
  lemma CloseSavesPartial(ms: seq<ModelChunk>, chatId: string)
    ensures (exists i :: 0 <= i < |ms| && ms[i].done) ==> SavedOnClose(FeedAll(Initial, ms, chatId), chatId).None?
    ensures (forall i :: 0 <= i < |ms| ==> !ms[i].done) ==>
      SavedOnClose(FeedAll(Initial, ms, chatId), chatId) == SavedOnEnd(FeedAll(Initial, ms, chatId), chatId)
  {
    FeedAllTotals(Initial, ms, chatId);
  }

  /** The closure of one streamed chat. */
  class ChatStream {
    const chatId: string
    const streamId: string
    const userId: string
    var fullText: string
    var fullThinking: string
    var isComplete: bool
    /** The payloads written to the client, in order. */
    var written: seq<Payload>

    constructor (chatId: string, streamId: string, userId: string)
      ensures this.chatId == chatId && this.streamId == streamId && this.userId == userId
      ensures State() == Initial
    {
      this.chatId := chatId;
      this.streamId := streamId;
      this.userId := userId;
      fullText := "";
      fullThinking := "";
      isComplete := false;
      written := [];
    }

    function State(): StreamState
      reads this
    {
      StreamState(fullText, fullThinking, isComplete, written)
    }

    /** One parsed line of a `data` event. */
    method Handle(m: ModelChunk)
      modifies this
      ensures State() == Feed(old(State()), m, chatId)
    {
      if Truthy(m.thinking) {
        fullThinking := fullThinking + m.thinking.value;
        written := written + [Payload(Some(fullThinking), fullText, false, chatId)];
      }
      if Truthy(m.content) {
        fullText := fullText + m.content.value;
        written := written + [Payload(if fullThinking != "" then Some(fullThinking) else None,
                                      fullText, m.done, chatId)];
      }
      if m.done {
        isComplete := true;
      }
    }

    /** A `data` event: its non-blank lines are parsed and handled in order. */
    method OnData(chunk: string, parse: string -> Option<ModelChunk>)
      modifies this
      ensures State() == FeedAll(old(State()), ChunkPieces(chunk, parse), chatId)
    {
      var lines := ChunkLines(chunk);
      HandleLines(lines, parse);
    }

    /** The loop over the lines of one event. */
    method HandleLines(lines: seq<string>, parse: string -> Option<ModelChunk>)
      modifies this
      ensures State() == FeedAll(old(State()), Parsed(lines, parse), chatId)
    {
      ghost var start := State();
      for i := 0 to |lines|
        invariant State() == FeedAll(start, Parsed(lines[..i], parse), chatId)
      {
        ghost var done := Parsed(lines[..i], parse);
        ParsedStep(lines, i, parse);
        var m := parse(lines[i]);
        if m.Some? {
          ParsedSnoc(start, done, m.value, chatId);
          Handle(m.value);
        } else {
          assert Parsed(lines[..i + 1], parse) == done + [];
          assert done + [] == done;
        }
      }
      assert lines[..|lines|] == lines;
    }

    /** The `end` event: the reply is saved when anything was received, and
        the stream and the session are dropped. */
    method OnEnd(server: AgentServer)
      modifies server
      ensures server.agentMessages == old(server.agentMessages) + Saved(SavedOnEnd(State(), chatId))
      ensures server.activeStreams == old(server.activeStreams) - {streamId}
      ensures server.activeSessions == old(server.activeSessions) - {userId}
      ensures server.cancelled == old(server.cancelled)
    {
      server.agentMessages := server.agentMessages + Saved(SavedOnEnd(State(), chatId));
      server.activeStreams := server.activeStreams - {streamId};
      server.activeSessions := server.activeSessions - {userId};
    }

    /** The `error` event: the reply is saved marked as interrupted. */
    method OnError(server: AgentServer)
      modifies server
      ensures server.agentMessages == old(server.agentMessages) + Saved(SavedOnError(State(), chatId))
      ensures server.activeStreams == old(server.activeStreams) - {streamId}
      ensures server.activeSessions == old(server.activeSessions) - {userId}
      ensures server.cancelled == old(server.cancelled)
    {
      server.agentMessages := server.agentMessages + Saved(SavedOnError(State(), chatId));
      server.activeStreams := server.activeStreams - {streamId};
      server.activeSessions := server.activeSessions - {userId};
    }

    /** The request's `close` event: a partial reply is saved. */
    method OnClose(server: AgentServer)
      modifies server
      ensures server.agentMessages == old(server.agentMessages) + Saved(SavedOnClose(State(), chatId))
      ensures server.activeStreams == old(server.activeStreams) - {streamId}
      ensures server.activeSessions == old(server.activeSessions) - {userId}
      ensures server.cancelled == old(server.cancelled)
    {
      server.agentMessages := server.agentMessages + Saved(SavedOnClose(State(), chatId));
      server.activeStreams := server.activeStreams - {streamId};
      server.activeSessions := server.activeSessions - {userId};
    }
  }

  lemma ParsedStep(lines: seq<string>, i: nat, parse: string -> Option<ModelChunk>)
    requires i < |lines|
    ensures Parsed(lines[..i + 1], parse) ==
      Parsed(lines[..i], parse) + (if parse(lines[i]).Some? then [parse(lines[i]).value] else [])
  {
    assert lines[..i + 1][..i] == lines[..i];
  }

  lemma ParsedSnoc(st: StreamState, ms: seq<ModelChunk>, m: ModelChunk, chatId: string)
    ensures FeedAll(st, ms + [m], chatId) == Feed(FeedAll(st, ms, chatId), m, chatId)
  {
    assert (ms + [m])[..|ms|] == ms;
  }
}
