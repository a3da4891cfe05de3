/**
 * The browser's WebSocket client for the household chat: a connection
 * state driven by the socket's events and the server's messages, a
 * household it has joined, and a reconnect counter with exponential
 * backoff. Browser events (open, message, error, close, a timer firing)
 * are steps applied one at a time; sending is an append to an outbox.
 */
module WsClient {
  import opened Wrappers
  import opened Types

  datatype ConnState = Disconnected | Connecting | Connected | Authenticated | InRoom | Reconnecting | Error

  datatype ClientMessage =
    | Authenticate(token: string)
    | JoinRoom(householdId: Uuid)
    | LeaveRoom
    | SendMessage(content: string)
    | EditMessage(messageId: Uuid, content: string)
    | DeleteMessage(messageId: Uuid)
    | Ping

  /** The server's messages; the chat payloads are reduced to their ids. */
  datatype ServerMessage =
    | AuthenticatedAs(userId: Uuid, username: string)
    | ServerError(code: string, message: string)
    | JoinedRoom(householdId: Uuid)
    | LeftRoom
    | NewMessage(messageId: Uuid)
    | MessageEdited(messageId: Uuid)
    | MessageDeleted(messageId: Uuid, householdId: Uuid)
    | Pong

  const MaxReconnectAttempts: nat := 5

  /**
   * Everything the client holds: socket says whether a WebSocket is
   * stored, timer the delay of a pending reconnect timeout, if any.
   */
  datatype Machine = Machine(
    state: ConnState,
    householdId: Option<Uuid>,
    attempts: nat,
    socket: bool,
    timer: Option<nat>,
    lastMessage: Option<ServerMessage>,
    outbox: seq<ClientMessage>)

  function Initial(): (m: Machine)
    ensures m.state == Disconnected && m.attempts == 0 && !m.socket && m.timer.None? && m.outbox == []
  {
    Machine(Disconnected, None, 0, false, None, None, [])
  }

  function Pow2(k: nat): (p: nat)
    ensures p >= 1
  {
    if k == 0 then 1 else 2 * Pow2(k - 1)
  }

  /** The wait before reconnect number attempts + 1, in milliseconds. */
  function Backoff(attempts: nat): (ms: nat)
    ensures ms >= 1000
    ensures attempts > 0 ==> ms == 2 * Backoff(attempts - 1)
  {
    1000 * Pow2(attempts)
  }

  /** connect goes ahead only from Disconnected or Error. */
  predicate MayConnect(s: ConnState)
  {
    s == Disconnected || s == Error
  }

  /**
   * connect: nothing in any other state; otherwise Connecting and a new
   * socket, or Error when the browser refuses to create one (socketOk).
   */
  function AfterConnect(m: Machine, socketOk: bool): (r: Machine)
    ensures !MayConnect(m.state) ==> r == m
    ensures MayConnect(m.state) ==> r.state == (if socketOk then Connecting else Error)
    ensures MayConnect(m.state) ==> r.socket == (m.socket || socketOk)
    ensures r.attempts == m.attempts && r.householdId == m.householdId && r.timer == m.timer
    ensures r.outbox == m.outbox
  {
    if !MayConnect(m.state) then m
    else if !socketOk then m.(state := Error)
    else m.(state := Connecting, socket := true)
  }

  /** onopen: Connected, the counter reset, and the stored token sent if there is one. */
  function AfterOpen(m: Machine, token: Option<string>): (r: Machine)
    ensures r.state == Connected && r.attempts == 0
    ensures token.Some? ==> r.outbox == m.outbox + [Authenticate(token.value)]
    ensures token.None? ==> r.outbox == m.outbox
  {
    var sent := if token.Some? then [Authenticate(token.value)] else [];
    m.(state := Connected, attempts := 0, outbox := m.outbox + sent)
  }

  /**
   * onmessage: text that is not a server message is ignored; otherwise it
   * becomes the last message and moves the state as its kind says.
   */
  function AfterMessage(m: Machine, msg: Option<ServerMessage>): (r: Machine)
    ensures msg.None? ==> r == m
    ensures msg.Some? ==> r.lastMessage == msg
    ensures msg.Some? && msg.value.AuthenticatedAs? ==> r.state == Authenticated && r.householdId == m.householdId
    ensures msg.Some? && msg.value.JoinedRoom? ==> r.state == InRoom && r.householdId == Some(msg.value.householdId)
    ensures msg.Some? && msg.value.LeftRoom? ==> r.state == Authenticated && r.householdId.None?
    ensures msg.Some? && !(msg.value.AuthenticatedAs? || msg.value.JoinedRoom? || msg.value.LeftRoom?) ==>
      r.state == m.state && r.householdId == m.householdId
    ensures r.attempts == m.attempts && r.socket == m.socket && r.timer == m.timer && r.outbox == m.outbox
  {
    match msg
    case None => m
    case Some(s) =>
      var n := m.(lastMessage := msg);
      match s
      case AuthenticatedAs(_, _) => n.(state := Authenticated)
      case JoinedRoom(h) => n.(state := InRoom, householdId := Some(h))
      case LeftRoom => n.(state := Authenticated, householdId := None)
      case _ => n
  }

  /** onerror. */
  function AfterError(m: Machine): (r: Machine)
    ensures r.state == Error && r == m.(state := Error)
  {
    m.(state := Error)
  }

  /**
   * schedule_reconnect: Error once the counter has reached the maximum;
   * otherwise Reconnecting, the counter up by one and a timeout pending
   * for 1000 * 2^attempts milliseconds.
   */
  function AfterSchedule(m: Machine): (r: Machine)
    ensures m.attempts >= MaxReconnectAttempts ==> r == m.(state := Error)
    ensures m.attempts < MaxReconnectAttempts ==>
      r.state == Reconnecting && r.attempts == m.attempts + 1 && r.timer == Some(Backoff(m.attempts))
    ensures r.attempts <= MaxReconnectAttempts || r.attempts == m.attempts
    ensures r.socket == m.socket && r.householdId == m.householdId && r.outbox == m.outbox
  {
    if m.attempts >= MaxReconnectAttempts then m.(state := Error)
    else m.(state := Reconnecting, attempts := m.attempts + 1, timer := Some(Backoff(m.attempts)))
  }

  /** onclose: Disconnected, no household, no socket, then a reconnect is scheduled. */
  function AfterClose(m: Machine): (r: Machine)
    ensures !r.socket && r.householdId.None?
    ensures r.state == Reconnecting || r.state == Error
    ensures r.state == Reconnecting <==> m.attempts < MaxReconnectAttempts
  {
    AfterSchedule(m.(state := Disconnected, householdId := None, socket := false))
  }

  /** send and the helpers built on it: a message goes out only over a stored socket. */
  function AfterSend(m: Machine, msg: ClientMessage): (r: Machine)
    ensures m.socket ==> r == m.(outbox := m.outbox + [msg])
    ensures !m.socket ==> r == m
  {
    if m.socket then m.(outbox := m.outbox + [msg]) else m
  }

  /**
   * disconnect: the pending timeout dropped, the counter set to the
   * maximum so that no reconnect follows, no socket, Disconnected and no
   * household.
   */
  function AfterDisconnect(m: Machine): (r: Machine)
    ensures r.state == Disconnected && r.householdId.None? && !r.socket && r.timer.None?
    ensures r.attempts == MaxReconnectAttempts
    ensures r.outbox == m.outbox && r.lastMessage == m.lastMessage
  {
    m.(state := Disconnected, householdId := None, socket := false, timer := None,
       attempts := MaxReconnectAttempts)
  }

  /** is_ready. */
  predicate Ready(m: Machine)
  {
    m.state == InRoom
  }

  // ---------------------------------------------------------------------
  // The reconnect timer

  /**
   * The timeout's callback as written: it calls connect, whose guard
   * refuses the Reconnecting state that schedule_reconnect has just set.
   */
  function AfterTimerAsWritten(m: Machine, socketOk: bool): (r: Machine)
    ensures m.state == Reconnecting ==> r == m.(timer := None)
  {
    AfterConnect(m.(timer := None), socketOk)
  }

  /**
   * The evidently intended callback: the reconnect that was scheduled
   * goes ahead, as connect would from Disconnected.
   */
  function AfterTimer(m: Machine, socketOk: bool): (r: Machine)
    ensures m.state == Reconnecting ==> r.state == (if socketOk then Connecting else Error)
    ensures m.state == Reconnecting && socketOk ==> r.socket
    ensures m.state != Reconnecting ==> r == AfterConnect(m.(timer := None), socketOk)
    ensures r.timer.None? && r.attempts == m.attempts
  {
    var n := m.(timer := None);
    if m.state == Reconnecting then AfterConnect(n.(state := Disconnected), socketOk)
    else AfterConnect(n, socketOk)
  }

  /**
   * As written, a dropped connection is never re-established: after the
   * close and the timer the client sits in Reconnecting without a socket
   * or a pending timer, and connect itself refuses to act.
   */
  lemma NeverReconnects(m: Machine, socketOk: bool, again: bool)
    requires m.attempts < MaxReconnectAttempts
    ensures var r := AfterTimerAsWritten(AfterClose(m), socketOk);
      r.state == Reconnecting && !r.socket && r.timer.None? && AfterConnect(r, again) == r
  {
  }

  /** The same, on a concrete connection that opened and then dropped. */
  lemma NeverReconnectsExample()
    ensures var live := AfterOpen(AfterConnect(Initial(), true), None);
      var r := AfterTimerAsWritten(AfterClose(live), true);
      live.state == Connected && r.state == Reconnecting && !r.socket
  {
  }

  /** With the intended callback the timer opens a new socket. */
  lemma ReconnectsAfterClose(m: Machine)
    requires m.attempts < MaxReconnectAttempts
    ensures var r := AfterTimer(AfterClose(m), true);
      r.state == Connecting && r.socket && r.attempts == m.attempts + 1
  {
  }

  /** One attempt that fails: the timer connects, the socket errors and closes. */
  function FailedAttempt(m: Machine): (r: Machine)
  {
    AfterClose(AfterError(AfterTimer(m, true)))
  }

  function FailedAttempts(m: Machine, n: nat): (r: Machine)
  {
    if n == 0 then m else FailedAttempt(FailedAttempts(m, n - 1))
  }

  /**
   * With the intended callback a server that stays away is retried until
   * the counter reaches five, each wait twice the one before, and then the
   * client gives up in Error with nothing pending.
   */
  lemma {:induction false} RetriesThenGivesUp(m: Machine, n: nat)
    requires m.state == Reconnecting && m.attempts + n <= MaxReconnectAttempts
    ensures var r := FailedAttempts(m, n);
      r.state == Reconnecting && r.attempts == m.attempts + n
      && (n > 0 ==> r.timer == Some(Backoff(m.attempts + n - 1)))
    ensures m.attempts + n == MaxReconnectAttempts ==> FailedAttempt(FailedAttempts(m, n)).state == Error
  {
    if n > 0 {
      RetriesThenGivesUp(m, n - 1);
    }
  }

  /** From a dropped connection the waits are 1, 2, 4, 8 and 16 seconds. */
  lemma BackoffSchedule()
    ensures Backoff(0) == 1000 && Backoff(1) == 2000 && Backoff(2) == 4000
    ensures Backoff(3) == 8000 && Backoff(4) == 16000
  {
  }

  // ---------------------------------------------------------------------
  // Invariants

  /** The counter never passes the maximum. */
  predicate Bounded(m: Machine)
  {
    m.attempts <= MaxReconnectAttempts
  }

  lemma StepsKeepBounded(m: Machine, socketOk: bool, token: Option<string>, msg: Option<ServerMessage>,
                         out: ClientMessage)
    requires Bounded(m)
    ensures Bounded(AfterConnect(m, socketOk)) && Bounded(AfterOpen(m, token)) && Bounded(AfterMessage(m, msg))
    ensures Bounded(AfterError(m)) && Bounded(AfterClose(m)) && Bounded(AfterSend(m, out))
    ensures Bounded(AfterDisconnect(m)) && Bounded(AfterTimer(m, socketOk))
  {
  }

  /** connect changes nothing once a connection is under way or open. */
  lemma ConnectGuard(m: Machine, socketOk: bool)
    ensures m.state in {Connecting, Connected, Authenticated, InRoom, Reconnecting} ==> AfterConnect(m, socketOk) == m
    ensures m.state in {Disconnected, Error} ==> AfterConnect(m, socketOk).state in {Connecting, Error}
  {
  }

  /** Ready exactly after joining a room, until the room is left or the connection goes. */
  lemma ReadyRules(m: Machine, h: Uuid)
    ensures Ready(AfterMessage(m, Some(JoinedRoom(h))))
    ensures !Ready(AfterMessage(m, Some(LeftRoom)))
    ensures !Ready(AfterClose(m)) && !Ready(AfterDisconnect(m)) && !Ready(AfterError(m))
    ensures Ready(AfterMessage(m, Some(ServerError("", "")))) <==> Ready(m)
  {
  }

  /**
   * After disconnect no reconnect follows: when the socket's close event
   * arrives the counter is at the maximum, so no timeout is scheduled;
   * the state then reads Error.
   */
  lemma DisconnectStopsReconnect(m: Machine)
    ensures var r := AfterClose(AfterDisconnect(m));
      r.timer.None? && r.state == Error && r.attempts == MaxReconnectAttempts
  {
  }

  /** A fresh open starts the counter again, so a later drop has all five retries. */
  lemma OpenRestoresRetries(m: Machine, token: Option<string>)
    ensures AfterClose(AfterOpen(m, token)).state == Reconnecting
    ensures AfterClose(AfterOpen(m, token)).attempts == 1
  {
  }

  // ---------------------------------------------------------------------
  // The client object

  class Client {
    var state: ConnState
    var householdId: Option<Uuid>
    var attempts: nat
    var socket: bool
    var timer: Option<nat>
    var lastMessage: Option<ServerMessage>
    var outbox: seq<ClientMessage>

    function Snapshot(): Machine
      reads this
    {
      Machine(state, householdId, attempts, socket, timer, lastMessage, outbox)
    }

    /** WsClient::new. */
    constructor ()
      ensures Snapshot() == Initial()
    {
      state := Disconnected;
      householdId := None;
      attempts := 0;
      socket := false;
      timer := None;
      lastMessage := None;
      outbox := [];
    }

    method Connect(socketOk: bool)
      modifies this
      ensures Snapshot() == AfterConnect(old(Snapshot()), socketOk)
    {
      if !(state == Disconnected || state == Error) {
        return;
      }
      state := Connecting;
      if !socketOk {
        state := Error;
        return;
      }
      socket := true;
    }

    method OnOpen(token: Option<string>)
      modifies this
      ensures Snapshot() == AfterOpen(old(Snapshot()), token)
    {
      state := Connected;
      attempts := 0;
      if token.Some? {
        outbox := outbox + [Authenticate(token.value)];
      }
    }

    method OnMessage(msg: Option<ServerMessage>)
      modifies this
      ensures Snapshot() == AfterMessage(old(Snapshot()), msg)
    {
      if msg.None? {
        return;
      }
      match msg.value {
        case AuthenticatedAs(_, _) =>
          state := Authenticated;
        case JoinedRoom(h) =>
          householdId := Some(h);
          state := InRoom;
        case LeftRoom =>
          householdId := None;
          state := Authenticated;
        case _ =>
      }
      lastMessage := msg;
    }

    method OnError()
      modifies this
      ensures Snapshot() == AfterError(old(Snapshot()))
    {
      state := Error;
    }

    method OnClose()
      modifies this
      ensures Snapshot() == AfterClose(old(Snapshot()))
    {
      state := Disconnected;
      householdId := None;
      socket := false;
      ScheduleReconnect();
    }

    method ScheduleReconnect()
      modifies this
      ensures Snapshot() == AfterSchedule(old(Snapshot()))
    {
      if attempts >= MaxReconnectAttempts {
        state := Error;
        return;
      }
      state := Reconnecting;
      timer := Some(1000 * Pow2(attempts));
      attempts := attempts + 1;
    }

    /** The reconnect timeout fires (the intended behaviour). */
    method OnReconnectTimer(socketOk: bool)
      modifies this
      ensures Snapshot() == AfterTimer(old(Snapshot()), socketOk)
    {
      timer := None;
      if state == Reconnecting {
        state := Disconnected;
      }
      Connect(socketOk);
    }

    method Send(msg: ClientMessage)
      modifies this
      ensures Snapshot() == AfterSend(old(Snapshot()), msg)
    {
      if socket {
        outbox := outbox + [msg];
      }
    }

    method Disconnect()
      modifies this
      ensures Snapshot() == AfterDisconnect(old(Snapshot()))
    {
      timer := None;
      attempts := MaxReconnectAttempts;
      socket := false;
      state := Disconnected;
      householdId := None;
    }

    method IsReady() returns (ready: bool)
      ensures ready <==> Ready(Snapshot())
    {
      ready := state == InRoom;
    }
  }
}
