/**
The per-relay actor: NIP-42 authentication, subscription replay after a
reconnect and correlation of publish acknowledgements. Every `await` point of
the actor loop is one move. What the socket, the notification queue and the
signer do is the move's `Env`.
*/
module RelayActor {
  import opened Common

  /** Each filter is kept as its JSON text. */
  type Filters = seq<string>
  /** Identity of the one-shot channel a command carries for its reply. */
  type Ticket = nat

  datatype Policy = RequireWhenConfigured | AuthenticateWhenChallenged

  /** `signer` is the hexadecimal public key of the configured NIP-42 signer. */
  datatype Config = Config(signer: Option<string>, policy: Policy)

  datatype Command =
    | Publish(event: string, ticket: Ticket)
    | Subscribe(id: string, filters: Filters, ticket: Ticket)
    | Close(id: string, ticket: Ticket)
    | Shutdown

  datatype Frame =
    | EventFrame(subscription: string, event: string)
    | EndOfStored(subscription: string)
    | OkFrame(event: string, accepted: bool, message: string)
    | ClosedFrame(subscription: string, message: string)
    | NoticeFrame(message: string)
    | AuthFrame(challenge: string)
    | Undecodable

  datatype Notification =
    | Connected
    | Disconnected
    | Event(subscription: string, event: string)
    | EndOfStoredEvents(subscription: string)
    | Closed(subscription: string, message: string)
    | Notice(message: string)
    | AuthChallenge(challenge: string)
    | Authenticated(publicKey: string)
    | AuthenticationRejected(publicKey: string, message: string)

  datatype Error = LostConnection | ActorStopped | DuplicatePublish | NotAuthenticated | SendFailed

  datatype Outcome = Done | Acknowledged(event: string) | PublishRejected(message: string) | Failed(error: Error)

  /** What crossed one connection, in order; a send that failed is logged too. */
  datatype Wire =
    | SentEvent(event: string, ticket: Ticket)
    | SentReq(id: string, filters: Filters)
    | SentClose(id: string)
    | SentAuth(event: string)
    | GotChallenge
    | GotOk(event: string, accepted: bool)

  datatype Phase = Connecting | Online | Waiting | Stopped

  datatype PendingAuthentication = PendingAuthentication(event: string, publicKey: string)

  /**
  `open` is `session_authenticated`. The last seven fields are history:
  the current connection's wire, the wires of closed connections, the
  notifications queued, every reply per ticket, the tickets taken from the
  command queue, those whose caller has gone away and those dropped unanswered.
  */
  datatype State = State(
    phase: Phase,
    subscriptions: map<string, Filters>,
    pending: map<string, Ticket>,
    authentication: Option<PendingAuthentication>,
    open: bool,
    failures: nat,
    progress: bool,
    wire: seq<Wire>,
    past: seq<seq<Wire>>,
    notes: seq<Notification>,
    replies: map<Ticket, seq<Outcome>>,
    taken: set<Ticket>,
    gone: set<Ticket>,
    dropped: set<Ticket>)

  /**
  Choices of the environment in one move. `order` is the walk over the
  subscription map, of which `sends` requests succeed before one fails;
  `signed` is the id of the signed AUTH event, or None when signing fails.
  */
  datatype Env = Env(
    notifyOk: bool,
    sendOk: bool,
    disconnectNotifyOk: bool,
    order: seq<string>,
    sends: nat,
    signed: Option<string>)

  datatype Move =
    | ConnectFails
    | ConnectOk(env: Env)
    | Dequeue(command: Command, env: Env)
    | Receive(frame: Frame, env: Env)
    | KeepAlive
    | SocketLost(env: Env)
    | CommandsClosed
    | WaitElapsed
    | CallerGone(ticket: Ticket)

  const MAX_FAILURES: nat := 0xFFFF_FFFF

  function Init(): State {
    State(Connecting, map[], map[], None, false, 0, false, [], [], [], map[], {}, {}, {})
  }

  /** A session that may carry ordinary frames. */
  predicate Live(s: State) { s.phase.Online? && s.open }

  /** Whether a new connection starts out authenticated. */
  predicate OpensAuthenticated(config: Config) {
    config.signer.None? || config.policy.AuthenticateWhenChallenged?
  }

  function RepliesTo(replies: map<Ticket, seq<Outcome>>, t: Ticket): seq<Outcome> {
    if t in replies then replies[t] else []
  }

  function Answer(replies: map<Ticket, seq<Outcome>>, t: Ticket, o: Outcome): map<Ticket, seq<Outcome>> {
    replies[t := RepliesTo(replies, t) + [o]]
  }

  /** `fail_pending`: every waiting publisher is told `o`. */
  function AnswerAll(replies: map<Ticket, seq<Outcome>>, pending: map<string, Ticket>, o: Outcome)
    : map<Ticket, seq<Outcome>>
  {
    map t | t in replies.Keys + pending.Values ::
      RepliesTo(replies, t) + if t in pending.Values then [o] else []
  }

  function Requests(subscriptions: map<string, Filters>, order: seq<string>): seq<Wire>
    requires forall id <- order :: id in subscriptions
  {
    seq(|order|, i requires 0 <= i < |order| => SentReq(order[i], subscriptions[order[i]]))
  }

  /** The requests a replay attempts: all of them, or up to the one that fails. */
  function Attempted(order: seq<string>, sends: nat): seq<string> {
    if sends < |order| then order[..sends + 1] else order
  }

  function BumpFailures(n: nat): nat { if n >= MAX_FAILURES then MAX_FAILURES else n + 1 }

  /** Leaving the inner loop with `break true`. */
  function Disconnect(s: State, notifyOk: bool): State {
    s.(phase := if notifyOk then Waiting else Stopped,
       replies := AnswerAll(s.replies, s.pending, Failed(LostConnection)),
       pending := map[], authentication := None, open := false,
       past := s.past + [s.wire], wire := [],
       notes := if notifyOk then s.notes + [Disconnected] else s.notes,
       failures := if !notifyOk then s.failures else if s.progress then 0 else BumpFailures(s.failures))
  }

  /** Leaving the actor with `break false`, from either loop. */
  function Stop(s: State): State {
    s.(phase := Stopped,
       replies := AnswerAll(s.replies, s.pending, Failed(ActorStopped)),
       pending := map[], open := false,
       past := if s.phase.Online? then s.past + [s.wire] else s.past, wire := [])
  }

  /** An early return through `?`: nothing is answered on this path. */
  function Abandon(s: State): State {
    s.(phase := Stopped, open := false, past := s.past + [s.wire], wire := [])
  }

  function Connect(config: Config, s: State, env: Env): State
    requires Enumerates(env.order, s.subscriptions.Keys)
  {
    var session := s.(phase := Online, open := OpensAuthenticated(config), progress := false, wire := []);
    if !env.notifyOk then
      Abandon(session)
    else
      var noted := session.(notes := s.notes + [Connected]);
      if !noted.open then
        noted
      else
        var replayed := noted.(wire := Requests(s.subscriptions, Attempted(env.order, env.sends)));
        if env.sends < |env.order| then Abandon(replayed) else replayed
  }

  function Take(s: State, t: Ticket): State { s.(taken := s.taken + {t}) }

  function Reply(s: State, t: Ticket, o: Outcome): State { s.(replies := Answer(s.replies, t, o)) }

  function OnPublish(s: State, event: string, t: Ticket, env: Env): State {
    var s := Take(s, t);
    if !s.open then
      Reply(s, t, Failed(NotAuthenticated))
    else if event in s.pending && s.pending[event] !in s.gone then
      Reply(s, t, Failed(DuplicatePublish))
    else
      var s := if event in s.pending
               then s.(dropped := s.dropped + {s.pending[event]}, pending := s.pending - {event})
               else s;
      var s := s.(wire := s.wire + [SentEvent(event, t)]);
      if env.sendOk then
        s.(pending := s.pending[event := t])
      else
        Disconnect(Reply(s, t, Failed(SendFailed)), env.disconnectNotifyOk)
  }

  function OnSubscribe(s: State, id: string, filters: Filters, t: Ticket, env: Env): State {
    var s := Take(s, t);
    if !s.open then
      Reply(s.(subscriptions := s.subscriptions[id := filters]), t, Done)
    else
      var s := s.(wire := s.wire + [SentReq(id, filters)]);
      if env.sendOk then
        Reply(s.(subscriptions := s.subscriptions[id := filters]), t, Done)
      else
        Disconnect(Reply(s, t, Failed(SendFailed)), env.disconnectNotifyOk)
  }

  function OnClose(s: State, id: string, t: Ticket, env: Env): State {
    var s := Take(s, t).(subscriptions := s.subscriptions - {id});
    if !s.open then
      Reply(s, t, Done)
    else
      var s := s.(wire := s.wire + [SentClose(id)]);
      if env.sendOk then
        Reply(s, t, Done)
      else
        Disconnect(Reply(s, t, Failed(SendFailed)), env.disconnectNotifyOk)
  }

  /** A queued notification; a full queue ends the connection. */
  function Notify(s: State, n: Notification, env: Env): State {
    if env.notifyOk then s.(notes := s.notes + [n]) else Disconnect(s, env.disconnectNotifyOk)
  }

  function OnOk(s: State, event: string, accepted: bool, message: string, env: Env): State
    requires Enumerates(env.order, s.subscriptions.Keys)
  {
    var s := s.(wire := s.wire + [GotOk(event, accepted)]);
    if s.authentication.Some? && s.authentication.value.event == event then
      var publicKey := s.authentication.value.publicKey;
      var s := s.(authentication := None, open := accepted);
      if !accepted then
        Notify(s, AuthenticationRejected(publicKey, message), env)
      else
        var s := s.(wire := s.wire + Requests(s.subscriptions, Attempted(env.order, env.sends)));
        if env.sends < |env.order|
        then Disconnect(s, env.disconnectNotifyOk)
        else Notify(s, Authenticated(publicKey), env)
    else if event in s.pending then
      var outcome := if accepted then Acknowledged(event) else PublishRejected(message);
      Reply(s, s.pending[event], outcome).(pending := s.pending - {event})
    else
      s
  }

  function OnChallenge(config: Config, s: State, challenge: string, env: Env): State {
    var s := s.(wire := s.wire + [GotChallenge]);
    if !env.notifyOk then
      Disconnect(s, env.disconnectNotifyOk)
    else
      var s := s.(notes := s.notes + [AuthChallenge(challenge)]);
      if config.signer.None? then
        s
      else
        var s := s.(open := false);
        if env.signed.None? then
          Disconnect(s, env.disconnectNotifyOk)
        else
          var s := s.(wire := s.wire + [SentAuth(env.signed.value)]);
          if env.sendOk
          then s.(authentication := Some(PendingAuthentication(env.signed.value, config.signer.value)))
          else Disconnect(s, env.disconnectNotifyOk)
  }

  function OnFrame(config: Config, s: State, frame: Frame, env: Env): State
    requires Enumerates(env.order, s.subscriptions.Keys)
  {
    var s := s.(progress := true);
    match frame
    case EventFrame(subscription, event) => Notify(s, Event(subscription, event), env)
    case EndOfStored(subscription) => Notify(s, EndOfStoredEvents(subscription), env)
    case OkFrame(event, accepted, message) => OnOk(s, event, accepted, message, env)
    case ClosedFrame(subscription, message) => Notify(s, Closed(subscription, message), env)
    case NoticeFrame(message) => Notify(s, Notice(message), env)
    case AuthFrame(challenge) => OnChallenge(config, s, challenge, env)
    case Undecodable => Disconnect(s, env.disconnectNotifyOk)
  }

  function OnCommand(s: State, command: Command, env: Env): State {
    match command
    case Publish(event, t) => OnPublish(s, event, t, env)
    case Subscribe(id, filters, t) => OnSubscribe(s, id, filters, t, env)
    case Close(id, t) => OnClose(s, id, t, env)
    case Shutdown => Stop(s)
  }

  /** `wait_to_reconnect`: one command is refused and the wait ends. */
  function RefuseWhileWaiting(s: State, command: Command): State {
    match command
    case Shutdown => Stop(s)
    case Publish(_, t) => Reply(Take(s, t), t, Failed(LostConnection)).(phase := Connecting)
    case Subscribe(_, _, t) => Reply(Take(s, t), t, Failed(LostConnection)).(phase := Connecting)
    case Close(_, t) => Reply(Take(s, t), t, Failed(LostConnection)).(phase := Connecting)
  }

  /** Each command owns a channel no other command has. */
  predicate FreshTicket(s: State, command: Command) {
    command.Shutdown? || command.ticket !in s.taken
  }

  /** Whether the actor can make this move; others leave the state alone. */
  predicate Enabled(s: State, m: Move) {
    match m
    case ConnectFails => s.phase.Connecting?
    case ConnectOk(env) => s.phase.Connecting? && Enumerates(env.order, s.subscriptions.Keys)
    case Dequeue(command, env) => (s.phase.Online? || s.phase.Waiting?) && FreshTicket(s, command)
    case Receive(_, env) => s.phase.Online? && Enumerates(env.order, s.subscriptions.Keys)
    case KeepAlive => s.phase.Online?
    case SocketLost(_) => s.phase.Online?
    case CommandsClosed => s.phase.Online? || s.phase.Waiting?
    case WaitElapsed => s.phase.Waiting?
    case CallerGone(_) => true
  }

  function Step(config: Config, s: State, m: Move): State {
    if !Enabled(s, m) then s else
    match m
    case ConnectFails => s.(phase := Waiting, failures := BumpFailures(s.failures))
    case ConnectOk(env) => Connect(config, s, env)
    case Dequeue(command, env) =>
      if s.phase.Online? then OnCommand(s, command, env) else RefuseWhileWaiting(s, command)
    case Receive(frame, env) => OnFrame(config, s, frame, env)
    case KeepAlive => s.(progress := true)
    case SocketLost(env) => Disconnect(s, env.disconnectNotifyOk)
    case CommandsClosed => Stop(s)
    case WaitElapsed => s.(phase := Connecting)
    case CallerGone(t) => s.(gone := s.gone + {t})
  }

  /** The state after any sequence of moves. */
  function Exec(config: Config, moves: seq<Move>): State {
    if moves == [] then Init() else Step(config, Exec(config, moves[..|moves| - 1]), moves[|moves| - 1])
  }
}
