/** The terminal screen's WebSocket client: input sent while the socket is
    not open is queued and flushed in order once it opens, and an unexpected
    close is answered by reconnecting with exponential backoff, except for
    the close codes 1000 (normal closure, section 7.4.1 of RFC 6455) and
    4001 (a code in the private-use range 4000-4999 of section 7.4.2 of
    RFC 6455, used by the server for a rejected login). */
module TerminalSocket {
  import opened Wrappers

  const MaxReconnectAttempts: nat := 5
  const BaseReconnectDelay: nat := 1000
  const NormalClosure: int := 1000
  const AuthRejected: int := 4001

  // ---------------------------------------------------------------------
  // The server address
  // ---------------------------------------------------------------------

  const DefaultApiUrl: string := "http://localhost:3333"

  /** `getWebSocketUrl`: a leading "http" becomes "ws", so "https" becomes
      "wss", and the terminal path is appended. */
  function GetWebSocketUrl(apiUrl: Option<string>): (url: string)
    ensures var base := if Truthy(apiUrl) then apiUrl.value else DefaultApiUrl;
      (|base| >= 4 && base[..4] == "http" ==> url == "ws" + base[4..] + "/ws/terminal") &&
      (!(|base| >= 4 && base[..4] == "http") ==> url == base + "/ws/terminal")
  {
    var base := if Truthy(apiUrl) then apiUrl.value else DefaultApiUrl;
    var converted := if |base| >= 4 && base[..4] == "http" then "ws" + base[4..] else base;
    converted + "/ws/terminal"
  }

  /** An http address maps to ws and an https address to wss. */
  lemma SecureSchemes(rest: string)
    ensures GetWebSocketUrl(Some("http://" + rest)) == "ws://" + rest + "/ws/terminal"
    ensures GetWebSocketUrl(Some("https://" + rest)) == "wss://" + rest + "/ws/terminal"
  {
    var a := "http://" + rest;
    assert a[..4] == "http" && a[4..] == "://" + rest;
    var b := "https://" + rest;
    assert b[..4] == "http" && b[4..] == "s://" + rest;
  }

  /** Without a configured address the local server is used. */
  lemma DefaultUrl()
    ensures GetWebSocketUrl(None) == "ws://" + "localhost:3333" + "/ws/terminal"
  {
    SecureSchemes("localhost:3333");
  }

  // ---------------------------------------------------------------------
  // Reconnect backoff
  // ---------------------------------------------------------------------

  function Pow2(n: nat): (p: nat)
    ensures p >= 1
  {
    if n == 0 then 1 else 2 * Pow2(n - 1)
  }

  /** Whether a close with this code is answered by reconnecting at all. */
  predicate Unexpected(code: int) {
    code != NormalClosure && code != AuthRejected
  }

  /** What `onclose` decides: the delay of the scheduled reconnect, if any,
      and the new attempt count. */
  function CloseDecision(attempts: nat, code: int): (r: (Option<nat>, nat))
    ensures r.0.Some? <==> Unexpected(code) && attempts < MaxReconnectAttempts
    ensures r.0.Some? ==> r.0.value == BaseReconnectDelay * Pow2(attempts) && r.1 == attempts + 1
    ensures r.0.None? ==> r.1 == attempts
  {
    if Unexpected(code) && attempts < MaxReconnectAttempts then
      (Some(BaseReconnectDelay * Pow2(attempts)), attempts + 1)
    else (None, attempts)
  }

  /** The reconnect delays scheduled by consecutive unexpected closes with
      no successful open in between, starting from `attempts`. */
  function Delays(attempts: nat, closes: nat): seq<nat>
    decreases closes
  {
    if closes == 0 then []
    else
      var (d, next) := CloseDecision(attempts, 1006);
      (if d.Some? then [d.value] else []) + Delays(next, closes - 1)
  }

  /** From a fresh start, consecutive unexpected closes schedule at most five
      reconnects, after 1, 2, 4, 8 and 16 seconds. */
  lemma {:induction false} BackoffDelays(attempts: nat, closes: nat)
    requires attempts <= MaxReconnectAttempts
    ensures |Delays(attempts, closes)| ==
      if closes < MaxReconnectAttempts - attempts then closes else MaxReconnectAttempts - attempts
    ensures forall i :: 0 <= i < |Delays(attempts, closes)| ==>
      Delays(attempts, closes)[i] == BaseReconnectDelay * Pow2(attempts + i)
    decreases closes
  {
    if closes > 0 && attempts < MaxReconnectAttempts {
      BackoffDelays(attempts + 1, closes - 1);
      var rest := Delays(attempts + 1, closes - 1);
      var all := Delays(attempts, closes);
      assert all == [BaseReconnectDelay * Pow2(attempts)] + rest;
      forall i | 0 <= i < |all|
        ensures all[i] == BaseReconnectDelay * Pow2(attempts + i)
      {
        if i > 0 {
          assert all[i] == rest[i - 1];
        }
      }
    } else if closes > 0 {
      GaveUp(attempts, closes);
    }
  }

  /** Once the attempts are used up, no further reconnect is scheduled. */
  lemma {:induction false} GaveUp(attempts: nat, closes: nat)
    requires attempts >= MaxReconnectAttempts
    ensures Delays(attempts, closes) == []
    decreases closes
  {
    if closes > 0 {
      GaveUp(attempts, closes - 1);
    }
  }

  lemma FreshBackoff()
    ensures Delays(0, 7) == [1000, 2000, 4000, 8000, 16000]
  {
    BackoffDelays(0, 7);
    assert Pow2(1) == 2 && Pow2(2) == 4 && Pow2(3) == 8 && Pow2(4) == 16;
  }

  // ---------------------------------------------------------------------
  // The client
  // ---------------------------------------------------------------------

  datatype Status = Disconnected | Connecting | Connected

  datatype ReadyState = SocketConnecting | SocketOpen | SocketClosing | SocketClosed

  /** `wsRef.current`: no socket, or the current socket's ready state. */
  datatype SocketRef = NoSocket | Socket(state: ReadyState)

  predicate IsOpen(s: SocketRef) { s == Socket(SocketOpen) }

  /** A message sent to the server. */
  datatype Outgoing = InputMsg(data: string) | ResizeMsg(cols: int, rows: int) | PingMsg

  /** What the client writes to the terminal. */
  datatype TerminalWrite = Output(data: string) | ExitNotice(exitCode: Option<int>) |
                           ReconnectNotice(delayMs: nat) | MaxAttemptsNotice

  /** A message received from the server, as far as the client reads it. */
  datatype Incoming = SessionMsg(sessionId: Option<string>, pid: Option<int>) | OutputMsg(data: Option<string>) |
                      ExitMsg(exitCode: Option<int>) | PongMsg | ErrorMsg(message: Option<string>)

  /** The inputs of a queue as the messages that carry them. */
  function Inputs(ds: seq<string>): (r: seq<Outgoing>)
    ensures |r| == |ds|
  {
    if |ds| == 0 then [] else Inputs(ds[..|ds| - 1]) + [InputMsg(ds[|ds| - 1])]
  }

  lemma InputsSnoc(ds: seq<string>, k: nat)
    requires k < |ds|
    ensures Inputs(ds[..k + 1]) == Inputs(ds[..k]) + [InputMsg(ds[k])]
  {
    assert ds[..k + 1][..k] == ds[..k];
  }

  /** The state held by the hook's refs and state variables. */
  class TerminalClient {
    var socket: SocketRef
    var status: Status
    var sessionId: Option<string>
    var pid: Option<int>
    var reconnectAttempts: nat
    var inputQueue: seq<string>
    /** The messages sent on the socket, in order. */
    var sent: seq<Outgoing>
    /** The delay of the scheduled automatic reconnect, if one is pending:
        `reconnectTimeoutRef`, which `clearTimers` cancels. */
    var reconnectTimer: Option<nat>
    /** The `connect` calls scheduled by `reconnect` that have not run yet.
        Their timer handles are not stored, so nothing cancels them. */
    var pendingConnects: nat
    var pinging: bool
    var terminal: seq<TerminalWrite>
    /** The texts passed to `onError`, in order. */
    var errors: seq<string>

    predicate Valid()
      reads this
    {
      reconnectAttempts <= MaxReconnectAttempts
    }

    constructor ()
      ensures Valid() && socket == NoSocket && status == Disconnected && reconnectAttempts == 0
      ensures inputQueue == [] && sent == [] && reconnectTimer.None? && pendingConnects == 0 && !pinging
      ensures sessionId.None? && pid.None? && terminal == [] && errors == []
    {
      socket := NoSocket;
      status := Disconnected;
      sessionId := None;
      pid := None;
      reconnectAttempts := 0;
      inputQueue := [];
      sent := [];
      reconnectTimer := None;
      pendingConnects := 0;
      pinging := false;
      terminal := [];
      errors := [];
    }

    /** `sendMessage`: sent only on an open socket. */
    method SendMessage(m: Outgoing) returns (ok: bool)
      modifies this
      ensures pendingConnects == old(pendingConnects)
      ensures ok == IsOpen(socket)
      ensures sent == if ok then old(sent) + [m] else old(sent)
      ensures socket == old(socket) && status == old(status) && inputQueue == old(inputQueue)
      ensures reconnectAttempts == old(reconnectAttempts) && reconnectTimer == old(reconnectTimer)
      ensures sessionId == old(sessionId) && pid == old(pid) && pinging == old(pinging)
      ensures terminal == old(terminal) && errors == old(errors)
    {
      ok := socket == Socket(SocketOpen);
      if ok {
        sent := sent + [m];
      }
    }

    /** `sendInput`: input that cannot be sent is queued. */
    method SendInput(data: string)
      modifies this
      requires Valid()
      ensures Valid()
      ensures pendingConnects == old(pendingConnects)
      ensures IsOpen(socket) ==> sent == old(sent) + [InputMsg(data)] && inputQueue == old(inputQueue)
      ensures !IsOpen(socket) ==> sent == old(sent) && inputQueue == old(inputQueue) + [data]
      ensures socket == old(socket) && status == old(status)
      ensures reconnectAttempts == old(reconnectAttempts) && reconnectTimer == old(reconnectTimer)
      ensures sessionId == old(sessionId) && pid == old(pid) && pinging == old(pinging)
      ensures terminal == old(terminal) && errors == old(errors)
    {
      var ok := SendMessage(InputMsg(data));
      if !ok {
        inputQueue := inputQueue + [data];
      }
    }

    /** `flushInputQueue`: queued inputs are sent from the front; the first
        one that cannot be sent goes back to the front and flushing stops.
        So some prefix of the queue is sent, in order, and the rest stays. */
    method FlushInputQueue()
      modifies this
      requires Valid()
      ensures Valid()
      ensures pendingConnects == old(pendingConnects)
      ensures exists k ::
        (0 <= k <= |old(inputQueue)| &&
         sent == old(sent) + Inputs(old(inputQueue)[..k]) && inputQueue == old(inputQueue)[k..])
      ensures IsOpen(socket) ==> sent == old(sent) + Inputs(old(inputQueue)) && inputQueue == []
      ensures !IsOpen(socket) ==> sent == old(sent) && inputQueue == old(inputQueue)
      ensures socket == old(socket) && status == old(status)
      ensures reconnectAttempts == old(reconnectAttempts) && reconnectTimer == old(reconnectTimer)
      ensures sessionId == old(sessionId) && pid == old(pid) && pinging == old(pinging)
      ensures terminal == old(terminal) && errors == old(errors)
    {
      ghost var queue := inputQueue;
      ghost var k := 0;
      while |inputQueue| > 0
        invariant 0 <= k <= |queue| && inputQueue == queue[k..]
        invariant sent == old(sent) + Inputs(queue[..k])
        invariant !IsOpen(socket) ==> k == 0
        invariant socket == old(socket) && status == old(status)
        invariant reconnectAttempts == old(reconnectAttempts) && reconnectTimer == old(reconnectTimer)
        invariant pendingConnects == old(pendingConnects)
        invariant sessionId == old(sessionId) && pid == old(pid) && pinging == old(pinging)
        invariant terminal == old(terminal) && errors == old(errors)
        decreases |inputQueue|
      {
        var data := inputQueue[0];
        inputQueue := inputQueue[1..];
        var ok := SendMessage(InputMsg(data));
        if !ok {
          inputQueue := [data] + inputQueue;
          assert inputQueue == queue[k..];
          break;
        }
        InputsSnoc(queue, k);
        k := k + 1;
      }
      assert queue[..|queue|] == queue;
      assert queue[..0] == [];
    }

    /** `connect` with the stored token: without one the error is reported;
        an open socket is kept; otherwise the timers are cleared and a new
        socket starts connecting. */
    method Connect(token: Option<string>)
      modifies this
      requires Valid()
      ensures Valid()
      ensures pendingConnects == old(pendingConnects)
      ensures !Truthy(token) ==>
        errors == old(errors) + ["Not authenticated"] && status == Disconnected &&
        socket == old(socket) && reconnectTimer == old(reconnectTimer) && pinging == old(pinging)
      ensures Truthy(token) && IsOpen(old(socket)) ==>
        errors == old(errors) && status == old(status) && socket == old(socket) &&
        reconnectTimer == old(reconnectTimer) && pinging == old(pinging)
      ensures Truthy(token) && !IsOpen(old(socket)) ==>
        errors == old(errors) && status == Connecting && socket == Socket(SocketConnecting) &&
        reconnectTimer.None? && !pinging
      ensures sent == old(sent) && inputQueue == old(inputQueue) && reconnectAttempts == old(reconnectAttempts)
      ensures sessionId == old(sessionId) && pid == old(pid) && terminal == old(terminal)
    {
      if !Truthy(token) {
        errors := errors + ["Not authenticated"];
        status := Disconnected;
        return;
      }
      if socket == Socket(SocketOpen) {
        return;
      }
      reconnectTimer := None;
      pinging := false;
      status := Connecting;
      socket := Socket(SocketConnecting);
    }

    /** `onopen`: connected, the attempt counter reset, pings started, the
        queue flushed, and the terminal size sent when there is a terminal. */
    method OnOpen(size: Option<(int, int)>)
      modifies this
      requires Valid()
      ensures Valid()
      ensures pendingConnects == old(pendingConnects)
      ensures status == Connected && reconnectAttempts == 0 && pinging
      ensures socket == if old(socket).Socket? then Socket(SocketOpen) else NoSocket
      ensures IsOpen(socket) ==>
        (inputQueue == [] &&
         sent == old(sent) + Inputs(old(inputQueue)) +
           (if size.Some? then [ResizeMsg(size.value.0, size.value.1)] else []))
      ensures !IsOpen(socket) ==> inputQueue == old(inputQueue) && sent == old(sent)
      ensures reconnectTimer == old(reconnectTimer) && sessionId == old(sessionId) && pid == old(pid)
      ensures terminal == old(terminal) && errors == old(errors)
    {
      if socket.Socket? {
        socket := Socket(SocketOpen);
      }
      status := Connected;
      reconnectAttempts := 0;
      pinging := true;
      FlushInputQueue();
      if size.Some? {
        var _ := SendMessage(ResizeMsg(size.value.0, size.value.1));
      }
    }

    /** A tick of the ping interval. */
    method OnPingTick()
      modifies this
      requires Valid()
      ensures Valid()
      ensures pendingConnects == old(pendingConnects)
      ensures sent == if IsOpen(socket) then old(sent) + [PingMsg] else old(sent)
      ensures socket == old(socket) && status == old(status) && inputQueue == old(inputQueue)
      ensures reconnectAttempts == old(reconnectAttempts) && reconnectTimer == old(reconnectTimer)
      ensures sessionId == old(sessionId) && pid == old(pid) && pinging == old(pinging)
      ensures terminal == old(terminal) && errors == old(errors)
    {
      var _ := SendMessage(PingMsg);
    }

    /** `onmessage` with the parsed message, `None` when it does not parse. */
    method OnMessage(msg: Option<Incoming>, hasTerminal: bool)
      modifies this
      requires Valid()
      ensures Valid()
      ensures pendingConnects == old(pendingConnects)
      ensures msg.Some? && msg.value.SessionMsg? ==>
        sessionId == (if Truthy(msg.value.sessionId) then msg.value.sessionId else None) &&
        pid == (if msg.value.pid.Some? && msg.value.pid.value != 0 then msg.value.pid else None)
      ensures !(msg.Some? && msg.value.SessionMsg?) ==> sessionId == old(sessionId) && pid == old(pid)
      ensures msg.Some? && msg.value.OutputMsg? && hasTerminal && Truthy(msg.value.data) ==>
        terminal == old(terminal) + [Output(msg.value.data.value)]
      ensures msg.Some? && msg.value.ExitMsg? && hasTerminal ==>
        terminal == old(terminal) + [ExitNotice(msg.value.exitCode)]
      ensures !(msg.Some? && hasTerminal &&
                ((msg.value.OutputMsg? && Truthy(msg.value.data)) || msg.value.ExitMsg?)) ==>
        terminal == old(terminal)
      ensures msg.Some? && msg.value.ErrorMsg? ==>
        errors == old(errors) + [if Truthy(msg.value.message) then msg.value.message.value else "Unknown error"]
      ensures !(msg.Some? && msg.value.ErrorMsg?) ==> errors == old(errors)
      ensures socket == old(socket) && status == old(status) && inputQueue == old(inputQueue)
      ensures sent == old(sent) && reconnectAttempts == old(reconnectAttempts)
      ensures reconnectTimer == old(reconnectTimer) && pinging == old(pinging)
    {
      if msg.None? {
        return;
      }
      match msg.value {
        case SessionMsg(sid, p) =>
          sessionId := if Truthy(sid) then sid else None;
          pid := if p.Some? && p.value != 0 then p else None;
        case OutputMsg(data) =>
          if hasTerminal && Truthy(data) {
            terminal := terminal + [Output(data.value)];
          }
        case ExitMsg(code) =>
          if hasTerminal {
            terminal := terminal + [ExitNotice(code)];
          }
        case PongMsg =>
        case ErrorMsg(message) =>
          errors := errors + [if Truthy(message) then message.value else "Unknown error"];
      }
    }

    /** `onclose` with the close code: the connection state is cleared and,
        for an unexpected code, a reconnect is scheduled with a doubled delay
        until the attempts are used up. */
    method OnClose(code: int, hasTerminal: bool)
      modifies this
      requires Valid()
      ensures Valid()
      ensures pendingConnects == old(pendingConnects)
      ensures status == Disconnected && sessionId.None? && pid.None? && !pinging
      ensures socket == if old(socket).Socket? then Socket(SocketClosed) else NoSocket
      ensures reconnectTimer == CloseDecision(old(reconnectAttempts), code).0
      ensures reconnectAttempts == CloseDecision(old(reconnectAttempts), code).1
      ensures reconnectTimer.Some? && hasTerminal ==>
        terminal == old(terminal) + [ReconnectNotice(reconnectTimer.value)]
      ensures Unexpected(code) && old(reconnectAttempts) >= MaxReconnectAttempts && hasTerminal ==>
        terminal == old(terminal) + [MaxAttemptsNotice]
      ensures !Unexpected(code) || !hasTerminal ==> terminal == old(terminal)
      ensures inputQueue == old(inputQueue) && sent == old(sent) && errors == old(errors)
    {
      status := Disconnected;
      sessionId := None;
      pid := None;
      reconnectTimer := None;
      pinging := false;
      if socket.Socket? {
        socket := Socket(SocketClosed);
      }
      var (delay, attempts) := CloseDecision(reconnectAttempts, code);
      if delay.Some? && hasTerminal {
        terminal := terminal + [ReconnectNotice(delay.value)];
      } else if Unexpected(code) && hasTerminal {
        terminal := terminal + [MaxAttemptsNotice];
      }
      reconnectAttempts := attempts;
      reconnectTimer := delay;
    }

    /** `onerror`: the connection error is reported. */
    method OnSocketError()
      modifies this
      requires Valid()
      ensures Valid()
      ensures pendingConnects == old(pendingConnects)
      ensures errors == old(errors) + ["Connection error"]
      ensures socket == old(socket) && status == old(status) && inputQueue == old(inputQueue)
      ensures sent == old(sent) && reconnectAttempts == old(reconnectAttempts)
      ensures reconnectTimer == old(reconnectTimer) && pinging == old(pinging)
      ensures sessionId == old(sessionId) && pid == old(pid) && terminal == old(terminal)
    {
      errors := errors + ["Connection error"];
    }

    /** `disconnect`: the timers are cleared, the attempts set to the
        maximum so that the coming close does not reconnect, the socket
        closed and dropped, and the session forgotten. */
    method Disconnect()
      modifies this
      requires Valid()
      ensures Valid()
      ensures pendingConnects == old(pendingConnects)
      ensures reconnectAttempts == MaxReconnectAttempts && reconnectTimer.None? && !pinging
      ensures socket == NoSocket && status == Disconnected && sessionId.None? && pid.None?
      ensures inputQueue == old(inputQueue) && sent == old(sent)
      ensures terminal == old(terminal) && errors == old(errors)
    {
      reconnectTimer := None;
      pinging := false;
      reconnectAttempts := MaxReconnectAttempts;
      socket := NoSocket;
      status := Disconnected;
      sessionId := None;
      pid := None;
    }

    /** `reconnect`: a disconnect, the attempts reset, and a `connect`
        scheduled after 100 ms with `setTimeout`. That handle is not kept in
        `reconnectTimeoutRef`, so the connect joins the pending ones, which
        no `clearTimers` reaches. */
    method Reconnect()
      modifies this
      requires Valid()
      ensures Valid()
      ensures pendingConnects == old(pendingConnects) + 1
      ensures reconnectAttempts == 0 && reconnectTimer.None? && !pinging
      ensures socket == NoSocket && status == Disconnected && sessionId.None? && pid.None?
      ensures inputQueue == old(inputQueue) && sent == old(sent)
      ensures terminal == old(terminal) && errors == old(errors)
    {
      Disconnect();
      reconnectAttempts := 0;
      pendingConnects := pendingConnects + 1;
    }

    /** One of the connects scheduled by `reconnect` runs, with the token
        stored at that time. */
    method OnPendingConnect(token: Option<string>)
      modifies this
      requires Valid()
      ensures Valid()
      ensures old(pendingConnects) == 0 ==>
        pendingConnects == 0 && status == old(status) && socket == old(socket) && errors == old(errors)
      ensures old(pendingConnects) > 0 ==> pendingConnects == old(pendingConnects) - 1
      ensures old(pendingConnects) > 0 && Truthy(token) && !IsOpen(old(socket)) ==>
        status == Connecting && socket == Socket(SocketConnecting)
      ensures old(pendingConnects) > 0 && !Truthy(token) ==>
        status == Disconnected && errors == old(errors) + ["Not authenticated"]
      ensures reconnectAttempts == old(reconnectAttempts) && inputQueue == old(inputQueue) && sent == old(sent)
    {
      if pendingConnects > 0 {
        pendingConnects := pendingConnects - 1;
        Connect(token);
      }
    }
  }

  /** A disconnect within 100 ms of a reconnect does not stop the reconnect:
      the connect scheduled by `reconnect` still runs and opens a socket. */
  method DisconnectAfterReconnect(token: string) returns (before: Status, after: Status)
    requires token != ""
    ensures before == Disconnected && after == Connecting
  {
    var c := new TerminalClient();
    c.Reconnect();
    c.Disconnect();
    before := c.status;
    c.OnPendingConnect(Some(token));
    after := c.status;
  }

  /** After a manual disconnect no close code schedules a reconnect. */
  lemma DisconnectSuppresses(code: int)
    ensures CloseDecision(MaxReconnectAttempts, code).0.None?
  {
  }

  /** Normal closure and a rejected login never schedule a reconnect. */
  lemma ExpectedCloses(attempts: nat)
    ensures CloseDecision(attempts, 1000).0.None? && CloseDecision(attempts, 4001).0.None?
    ensures attempts < MaxReconnectAttempts ==> CloseDecision(attempts, 1006).0.Some?
  {
  }
}
