/** `streamChat`: reading the chat endpoint's newline-delimited JSON stream.
    Decoded text arrives in pieces; complete lines are parsed and
    dispatched, and the text after the last line break waits in a buffer
    for the next piece. */
module AgentApi {
  import opened Wrappers
  import opened Seqs
  import opened Strings

  /** The fields of one parsed stream line that the client reads. */
  datatype StreamMsg = StreamMsg(content: Option<string>, chatId: Option<string>,
                                 thinking: Option<string>, done: bool)

  /** One `reader.read()`: decoded text, the end of the stream, or a
      rejection (an abort or another error). */
  datatype Read = Data(text: string) | End | Failure(aborted: bool)

  /** The `fetch` outcome: rejected, or a response with its status, its
      `X-Chat-Id` header and the reads its body will give. */
  datatype Response =
    | Rejected(aborted: bool)
    | Reply(ok: bool, status: nat, chatIdHeader: Option<string>, pieces: seq<Read>)

  /** What the caller observes: the three callbacks, and the log line for
      a line that does not parse. */
  datatype Event =
    | OnChunk(content: string, chatId: Option<string>, thinking: Option<string>)
    | OnComplete
    | OnError
    | Unparsable(line: string)

  /** `json.chatId || chatId || undefined`: an empty id counts as none. */
  function ChatIdOf(m: StreamMsg, header: Option<string>): (id: Option<string>)
    ensures id.Some? ==> id.value != "" && (id == m.chatId || id == header)
    ensures m.chatId.Some? && m.chatId.value != "" ==> id == m.chatId
  {
    if m.chatId.Some? && m.chatId.value != "" then m.chatId
    else if header.Some? && header.value != "" then header
    else None
  }

  /** The events of one complete line, and whether it ends the stream. */
  function LineEvents(line: string, header: Option<string>, parse: string -> Option<StreamMsg>): (seq<Event>, bool) {
    if IsBlank(line) then ([], false)
    else
      var json := parse(line);
      if json.None? then ([Unparsable(line)], false)
      else
        var m := json.value;
        var chunk := if m.content.Some? then [OnChunk(m.content.value, ChatIdOf(m, header), m.thinking)] else [];
        (chunk + (if m.done then [OnComplete] else []), m.done)
  }

  /** The events of the complete lines of one read, up to a done flag. */
  function LinesEvents(lines: seq<string>, header: Option<string>, parse: string -> Option<StreamMsg>): (seq<Event>, bool)
  {
    if lines == [] then ([], false)
    else
      var first := LineEvents(lines[0], header, parse);
      if first.1 then first
      else
        var rest := LinesEvents(lines[1..], header, parse);
        (first.0 + rest.0, rest.1)
  }

  /** The events of the remaining pieces, starting with `buffer` carried over. */
  function ReadsEvents(pieces: seq<Read>, buffer: string, header: Option<string>, parse: string -> Option<StreamMsg>): seq<Event>
  {
    if pieces == [] then []
    else
      match pieces[0]
      case End => [OnComplete]
      case Failure(aborted) => if aborted then [] else [OnError]
      case Data(text) =>
        var parts := Split(buffer + text, '\n');
        var lines := LinesEvents(parts[..|parts| - 1], header, parse);
        if lines.1 then lines.0 else lines.0 + ReadsEvents(pieces[1..], parts[|parts| - 1], header, parse)
  }

  /** Everything `streamChat` reports for one request. An aborted request
      reports nothing; any other failure, a non-OK status included, calls
      `onError` once. A stream that neither ends nor fails is still being
      read. */
  function Outcome(response: Response, parse: string -> Option<StreamMsg>): seq<Event> {
    match response
    case Rejected(aborted) => if aborted then [] else [OnError]
    case Reply(ok, _, header, pieces) => if !ok then [OnError] else ReadsEvents(pieces, "", header, parse)
  }

  /** The text of the first `n` pieces. */
  function Received(pieces: seq<Read>): string {
    if pieces == [] then "" else Received(pieces[..|pieces| - 1]) + (if pieces[|pieces| - 1].Data? then pieces[|pieces| - 1].text else "")
  }

  /** Each line followed by its line break. */
  function Terminated(lines: seq<string>): string {
    if lines == [] then "" else Terminated(lines[..|lines| - 1]) + lines[|lines| - 1] + "\n"
  }

  lemma {:induction false} TerminatedAppend(a: seq<string>, b: seq<string>)
    ensures Terminated(a + b) == Terminated(a) + Terminated(b)
    decreases |b|
  {
    if b == [] {
      assert a + b == a;
    } else {
      assert (a + b)[..|a + b| - 1] == a + b[..|b| - 1];
      TerminatedAppend(a, b[..|b| - 1]);
    }
  }

  /** The pieces split at line breaks: all but the last, terminated, then the last. */
  lemma {:induction false} TerminatedJoin(parts: seq<string>)
    requires |parts| >= 1
    ensures Terminated(parts[..|parts| - 1]) + parts[|parts| - 1] == Join(parts, "\n")
  {
    if |parts| > 1 {
      var tail := parts[1..];
      TerminatedJoin(tail);
      assert parts[..|parts| - 1] == [parts[0]] + tail[..|tail| - 1];
      TerminatedAppend([parts[0]], tail[..|tail| - 1]);
      assert Terminated([parts[0]]) == parts[0] + "\n" by {
        assert [parts[0]][..0] == [];
      }
    } else {
      assert parts[..0] == [];
    }
  }

  /** One line of the loop: skipped when blank, logged when it does not
      parse, otherwise `onChunk` when it has content and `onComplete` when
      it is done. */
  method DispatchLine(line: string, header: Option<string>, parse: string -> Option<StreamMsg>)
    returns (events: seq<Event>, done: bool)
    ensures events == LineEvents(line, header, parse).0 && done == LineEvents(line, header, parse).1
  {
    events, done := [], false;
    if Trim(line) == "" {
      return;
    }
    var json := parse(line);
    if json.None? {
      events := [Unparsable(line)];
      return;
    }
    var m := json.value;
    if m.content.Some? {
      events := [OnChunk(m.content.value, ChatIdOf(m, header), m.thinking)];
    }
    if m.done {
      events := events + [OnComplete];
      done := true;
    }
  }

  /** The `for (const line of lines)` loop of one read: the events it
      dispatches and whether a done flag returned from `streamChat`. */
  method DispatchLines(complete: seq<string>, header: Option<string>, parse: string -> Option<StreamMsg>)
    returns (events: seq<Event>, stop: bool)
    ensures events == LinesEvents(complete, header, parse).0 && stop == LinesEvents(complete, header, parse).1
  {
    ghost var all := LinesEvents(complete, header, parse);
    events, stop := [], false;
    var k := 0;
    while k < |complete| && !stop
      invariant k <= |complete|
      invariant !stop ==> all.0 == events + LinesEvents(complete[k..], header, parse).0 &&
                          all.1 == LinesEvents(complete[k..], header, parse).1
      invariant stop ==> events == all.0 && all.1
      decreases |complete| - k
    {
      assert complete[k..][1..] == complete[k + 1..];
      var lineEvents, done := DispatchLine(complete[k], header, parse);
      events, stop := events + lineEvents, done;
      k := k + 1;
    }
    if !stop {
      assert complete[k..] == [];
    }
  }

  /** One data read: its complete lines, then (unless done) the rest. */
  lemma DataStep(pieces: seq<Read>, n: nat, buffer: string, header: Option<string>, parse: string -> Option<StreamMsg>)
    requires n < |pieces| && pieces[n].Data?
    ensures var parts := Split(buffer + pieces[n].text, '\n');
      var l := LinesEvents(parts[..|parts| - 1], header, parse);
      ReadsEvents(pieces[n..], buffer, header, parse) ==
        if l.1 then l.0 else l.0 + ReadsEvents(pieces[n + 1..], parts[|parts| - 1], header, parse)
  {
    var rest := pieces[n..];
    assert rest[0] == pieces[n] && rest[1..] == pieces[n + 1..];
  }

  lemma ReceivedStep(pieces: seq<Read>, n: nat)
    requires n < |pieces|
    ensures Received(pieces[..n + 1]) == Received(pieces[..n]) + (if pieces[n].Data? then pieces[n].text else "")
  {
    assert pieces[..n + 1][..n] == pieces[..n];
  }

  /** Splitting the buffer and the new text keeps all text accounted for. */
  lemma CarryOver(lines: seq<string>, buffer: string, text: string, parts: seq<string>)
    requires parts == Split(buffer + text, '\n')
    ensures Terminated(lines + parts[..|parts| - 1]) + parts[|parts| - 1] == Terminated(lines) + buffer + text
  {
    var init, last := parts[..|parts| - 1], parts[|parts| - 1];
    TerminatedJoin(parts);
    TerminatedAppend(lines, init);
    assert Join(parts, ['\n']) == buffer + text;
    Associative(Terminated(lines), Terminated(init), last);
    Associative(Terminated(lines), buffer, text);
  }

  lemma Associative<T>(a: seq<T>, b: seq<T>, c: seq<T>)
    ensures (a + b) + c == a + (b + c)
  {
  }

  /** `streamChat(request, onChunk, onComplete, onError)` on one response.
      Besides the events it returns what is left in the buffer, every
      complete line split off, and how many reads were taken. */
  method StreamChat(response: Response, parse: string -> Option<StreamMsg>)
    returns (events: seq<Event>, buffer: string, lines: seq<string>, consumed: nat)
    ensures events == Outcome(response, parse)
    ensures '\n' !in buffer
    ensures response.Reply? ==> consumed <= |response.pieces| && Terminated(lines) + buffer == Received(response.pieces[..consumed])
  {
    if response.Rejected? {
      events, buffer, lines, consumed := if response.aborted then [] else [OnError], "", [], 0;
    } else if !response.ok {
      events, buffer, lines, consumed := [OnError], "", [], 0;
      assert response.pieces[..0] == [];
    } else {
      events, buffer, lines, consumed := ReadLoop(response.pieces, response.chatIdHeader, parse);
    }
  }

  /** The complete lines one read makes available. */
  function CompleteLines(read: Read, buffer: string): seq<string> {
    if read.Data? then var parts := Split(buffer + read.text, '\n'); parts[..|parts| - 1] else []
  }

  /** What waits in the buffer after one read. */
  function NextBuffer(read: Read, buffer: string): (b: string)
    ensures read.Data? ==> '\n' !in b
  {
    if read.Data? then var parts := Split(buffer + read.text, '\n'); parts[|parts| - 1] else buffer
  }

  /** The events of one read, and whether reading stops after it. */
  function StepEvents(read: Read, buffer: string, header: Option<string>, parse: string -> Option<StreamMsg>): seq<Event> {
    match read
    case End => [OnComplete]
    case Failure(aborted) => if aborted then [] else [OnError]
    case Data(_) => LinesEvents(CompleteLines(read, buffer), header, parse).0
  }

  predicate Stops(read: Read, buffer: string, header: Option<string>, parse: string -> Option<StreamMsg>) {
    !read.Data? || LinesEvents(CompleteLines(read, buffer), header, parse).1
  }

  /** One read of the loop, as the source performs it. */
  method ReadOnce(read: Read, buffer: string, header: Option<string>, parse: string -> Option<StreamMsg>)
    returns (events: seq<Event>, stop: bool, complete: seq<string>, next: string)
    ensures events == StepEvents(read, buffer, header, parse) && stop == Stops(read, buffer, header, parse)
    ensures complete == CompleteLines(read, buffer) && next == NextBuffer(read, buffer)
  {
    if read.End? {
      return [OnComplete], true, [], buffer;
    }
    if read.Failure? {
      return if read.aborted then [] else [OnError], true, [], buffer;
    }
    var parts := Split(buffer + read.text, '\n');
    next := parts[|parts| - 1];
    complete := parts[..|parts| - 1];
    events, stop := DispatchLines(complete, header, parse);
  }

  /** One read, stated on the remaining reads. */
  lemma StepLemma(pieces: seq<Read>, n: nat, buffer: string, lines: seq<string>, header: Option<string>, parse: string -> Option<StreamMsg>)
    requires n < |pieces|
    ensures var r := pieces[n];
      ReadsEvents(pieces[n..], buffer, header, parse) ==
        if Stops(r, buffer, header, parse) then StepEvents(r, buffer, header, parse)
        else StepEvents(r, buffer, header, parse) + ReadsEvents(pieces[n + 1..], NextBuffer(r, buffer), header, parse)
    ensures var r := pieces[n];
      Terminated(lines + CompleteLines(r, buffer)) + NextBuffer(r, buffer) ==
        Terminated(lines) + buffer + (if r.Data? then r.text else "")
  {
    var r := pieces[n];
    if r.Data? {
      DataStep(pieces, n, buffer, header, parse);
      CarryOver(lines, buffer, r.text, Split(buffer + r.text, '\n'));
    } else {
      StopStep(pieces, n, buffer, header, parse);
      assert lines + [] == lines;
    }
  }

  /** The `while (true)` read loop. */
  method ReadLoop(pieces: seq<Read>, header: Option<string>, parse: string -> Option<StreamMsg>)
    returns (events: seq<Event>, buffer: string, lines: seq<string>, consumed: nat)
    ensures events == ReadsEvents(pieces, "", header, parse)
    ensures '\n' !in buffer
    ensures consumed <= |pieces| && Terminated(lines) + buffer == Received(pieces[..consumed])
  {
    events, buffer, lines, consumed := [], "", [], 0;
    assert pieces[..0] == [] && pieces[0..] == pieces;
    while consumed < |pieces|
      invariant consumed <= |pieces|
      invariant events + ReadsEvents(pieces[consumed..], buffer, header, parse) == ReadsEvents(pieces, "", header, parse)
      invariant '\n' !in buffer
      invariant Terminated(lines) + buffer == Received(pieces[..consumed])
      decreases |pieces| - consumed
    {
      StepLemma(pieces, consumed, buffer, lines, header, parse);
      ReceivedStep(pieces, consumed);
      var dispatched, stop, complete, next := ReadOnce(pieces[consumed], buffer, header, parse);
      Associative(events, dispatched, ReadsEvents(pieces[consumed + 1..], next, header, parse));
      events, lines, buffer, consumed := events + dispatched, lines + complete, next, consumed + 1;
      if stop {
        return;
      }
    }
    assert pieces[consumed..] == [];
  }
  /** The end of the stream calls `onComplete`; a failed read calls
      `onError` unless it was an abort. */
  lemma StopStep(pieces: seq<Read>, n: nat, buffer: string, header: Option<string>, parse: string -> Option<StreamMsg>)
    requires n < |pieces| && !pieces[n].Data?
    ensures ReadsEvents(pieces[n..], buffer, header, parse) ==
      if pieces[n].End? then [OnComplete] else if pieces[n].aborted then [] else [OnError]
  {
    assert pieces[n..][0] == pieces[n];
  }

  // ----- What the callbacks see -----

  /** `onComplete` comes at most once, and nothing follows it. */
  predicate CompleteEndsAll(ev: seq<Event>) {
    forall i :: 0 <= i < |ev| && ev[i] == OnComplete ==> i == |ev| - 1
  }

  lemma CompleteEndsAllAppend(a: seq<Event>, b: seq<Event>)
    requires OnComplete !in a && CompleteEndsAll(b)
    ensures CompleteEndsAll(a + b)
  {
    forall i | 0 <= i < |a + b| && (a + b)[i] == OnComplete ensures i == |a + b| - 1 {
      if i >= |a| {
        assert b[i - |a|] == OnComplete;
      }
    }
  }

  lemma {:induction false} LinesComplete(lines: seq<string>, header: Option<string>, parse: string -> Option<StreamMsg>)
    ensures var l := LinesEvents(lines, header, parse);
      (l.1 ==> CompleteEndsAll(l.0)) && (!l.1 ==> OnComplete !in l.0)
  {
    if lines != [] {
      LinesComplete(lines[1..], header, parse);
      var first := LineEvents(lines[0], header, parse);
      if !first.1 {
        var rest := LinesEvents(lines[1..], header, parse);
        if rest.1 {
          CompleteEndsAllAppend(first.0, rest.0);
        }
      }
    }
  }

  lemma {:induction false} ReadsComplete(pieces: seq<Read>, buffer: string, header: Option<string>, parse: string -> Option<StreamMsg>)
    ensures CompleteEndsAll(ReadsEvents(pieces, buffer, header, parse))
  {
    if pieces != [] && pieces[0].Data? {
      var parts := Split(buffer + pieces[0].text, '\n');
      LinesComplete(parts[..|parts| - 1], header, parse);
      ReadsComplete(pieces[1..], parts[|parts| - 1], header, parse);
      var l := LinesEvents(parts[..|parts| - 1], header, parse);
      if !l.1 {
        CompleteEndsAllAppend(l.0, ReadsEvents(pieces[1..], parts[|parts| - 1], header, parse));
      }
    }
  }

  /** `onComplete` is called at most once, and last. */
  lemma CompleteAtMostOnce(response: Response, parse: string -> Option<StreamMsg>)
    ensures CompleteEndsAll(Outcome(response, parse))
  {
    if response.Reply? && response.ok {
      ReadsComplete(response.pieces, "", response.chatIdHeader, parse);
    }
  }

  /** A blank line changes nothing. */
  lemma {:induction false} BlankLineSkipped(a: seq<string>, blank: string, c: seq<string>,
                                           header: Option<string>, parse: string -> Option<StreamMsg>)
    requires IsBlank(blank)
    ensures LinesEvents(a + [blank] + c, header, parse) == LinesEvents(a + c, header, parse)
  {
    if a == [] {
      assert a + [blank] + c == [blank] + c && ([blank] + c)[1..] == c && a + c == c;
      var rest := LinesEvents(c, header, parse);
      assert LineEvents(blank, header, parse) == ([], false);
      assert [] + rest.0 == rest.0;
    } else {
      BlankLineSkipped(a[1..], blank, c, header, parse);
      assert (a + [blank] + c)[1..] == a[1..] + [blank] + c;
      assert (a + c)[1..] == a[1..] + c;
      assert (a + [blank] + c)[0] == a[0] == (a + c)[0];
    }
  }

  /** Text after the last line break is never parsed: if the stream ends
      before another break arrives, only `onComplete` follows. */
  lemma PartialLineNeverParsed(buffer: string, text: string, header: Option<string>, parse: string -> Option<StreamMsg>)
    requires '\n' !in buffer + text
    ensures ReadsEvents([Data(text), End], buffer, header, parse) == [OnComplete]
  {
    SplitWithout(buffer + text);
    assert [Data(text), End][1..] == [End];
  }

  lemma SplitWithout(s: string)
    requires '\n' !in s
    ensures Split(s, '\n') == [s]
  {
    var k := FindIndex(s, x => x == '\n');
    assert k == |s|;
  }

  /** Every `onChunk` call carries the content of a parsed, non-blank line,
      with the thinking of that line and its chat id or else the header's. */
  ghost predicate FromLine(e: Event, header: Option<string>, parse: string -> Option<StreamMsg>) {
    e.OnChunk? ==>
      exists line :: !IsBlank(line) && parse(line).Some? && parse(line).value.content == Some(e.content) &&
        e.chatId == ChatIdOf(parse(line).value, header) && e.thinking == parse(line).value.thinking
  }

  lemma {:induction false} LinesFromLines(lines: seq<string>, header: Option<string>, parse: string -> Option<StreamMsg>)
    ensures forall e :: e in LinesEvents(lines, header, parse).0 ==> FromLine(e, header, parse)
  {
    if lines != [] {
      LinesFromLines(lines[1..], header, parse);
      var line := lines[0];
      forall e | e in LineEvents(line, header, parse).0 ensures FromLine(e, header, parse) {
        if e.OnChunk? {
          assert !IsBlank(line) && parse(line).Some?;
        }
      }
    }
  }

  lemma {:induction false} ChunksFromLines(pieces: seq<Read>, buffer: string, header: Option<string>, parse: string -> Option<StreamMsg>)
    ensures forall e :: e in ReadsEvents(pieces, buffer, header, parse) ==> FromLine(e, header, parse)
  {
    if pieces != [] && pieces[0].Data? {
      var parts := Split(buffer + pieces[0].text, '\n');
      LinesFromLines(parts[..|parts| - 1], header, parse);
      ChunksFromLines(pieces[1..], parts[|parts| - 1], header, parse);
    }
  }

  /** So every `onChunk` of a request comes from a parsed line with content. */
  lemma ChunksHaveContent(response: Response, parse: string -> Option<StreamMsg>)
    requires response.Reply?
    ensures forall e :: e in Outcome(response, parse) ==> FromLine(e, response.chatIdHeader, parse)
  {
    if response.ok {
      ChunksFromLines(response.pieces, "", response.chatIdHeader, parse);
    }
  }
}
