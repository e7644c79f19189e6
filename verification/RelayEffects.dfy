/**
What the relay actor reports and does, over whole runs: every notification is explained by
the move that queued it, every frame of the relay is reported as it came, and every command
taken has the effect and the answer that the session at that moment calls for.
*/
module RelayEffects {
  import opened Common
  import opened RelayActor
  import RelayReplies

  // Notifications.

  /** The notification that reports a frame, for the four kinds that are only reported. */
  predicate Reports(frame: Frame, n: Notification) {
    || (frame.EventFrame? && n.Event? && n.subscription == frame.subscription && n.event == frame.event)
    || (frame.EndOfStored? && n.EndOfStoredEvents? && n.subscription == frame.subscription)
    || (frame.ClosedFrame? && n.Closed? && n.subscription == frame.subscription && n.message == frame.message)
    || (frame.NoticeFrame? && n.Notice? && n.message == frame.message)
  }

  predicate Reported(frame: Frame) {
    frame.EventFrame? || frame.EndOfStored? || frame.ClosedFrame? || frame.NoticeFrame?
  }

  predicate IsReport(n: Notification) { n.Event? || n.EndOfStoredEvents? || n.Closed? || n.Notice? }

  /** What move brought a notification about. */
  predicate Caused(s: State, m: Move, n: Notification) {
    match n
    case Connected => m.ConnectOk? && s.phase.Connecting? && m.env.notifyOk
    case Disconnected => s.phase.Online?
    case AuthChallenge(challenge) => m.Receive? && m.frame == AuthFrame(challenge) && m.env.notifyOk
    case Authenticated(publicKey) =>
      && m.Receive? && m.frame.OkFrame? && m.frame.accepted
      && s.authentication == Some(PendingAuthentication(m.frame.event, publicKey))
    case AuthenticationRejected(publicKey, message) =>
      && m.Receive? && m.frame.OkFrame? && !m.frame.accepted && m.frame.message == message
      && s.authentication == Some(PendingAuthentication(m.frame.event, publicKey))
    case _ => m.Receive? && Reports(m.frame, n) && m.env.notifyOk
  }

  /** A move queues nothing, or one notification, or a challenge and the end of its connection. */
  predicate Explained(s: State, m: Move, s': State) {
    && s.notes <= s'.notes && |s'.notes| <= |s.notes| + 2
    && (forall k | |s.notes| <= k < |s'.notes| :: Caused(s, m, s'.notes[k]))
    && (|s'.notes| == |s.notes| + 2 ==> s'.notes[|s.notes|].AuthChallenge? && s'.notes[|s.notes| + 1].Disconnected?)
    && (forall k | |s.notes| <= k < |s'.notes| && s'.notes[k].Disconnected? :: !s'.phase.Online?)
  }

  lemma QueuesNone(s: State, m: Move, s': State)
    requires s'.notes == s.notes
    ensures Explained(s, m, s')
  {
  }

  lemma QueuesOne(s: State, m: Move, s': State, n: Notification)
    requires s'.notes == s.notes + [n] && Caused(s, m, n) && (n.Disconnected? ==> !s'.phase.Online?)
    ensures Explained(s, m, s')
  {
  }

  /** Leaving the connection, from a state that differs from `s` in other things. */
  lemma DisconnectNotes(s: State, m: Move, t: State, notifyOk: bool)
    requires s.phase.Online? && t.notes == s.notes
    ensures Explained(s, m, Disconnect(t, notifyOk))
  {
    if notifyOk { QueuesOne(s, m, Disconnect(t, notifyOk), Disconnected); } else { QueuesNone(s, m, Disconnect(t, notifyOk)); }
  }

  lemma NotifyNotes(s: State, m: Move, t: State, n: Notification, env: Env)
    requires s.phase.Online? && t.notes == s.notes && (env.notifyOk ==> Caused(s, m, n)) && !n.Disconnected?
    ensures Explained(s, m, Notify(t, n, env))
  {
    if env.notifyOk { QueuesOne(s, m, Notify(t, n, env), n); } else { DisconnectNotes(s, m, t, env.disconnectNotifyOk); }
  }

  lemma OkNotes(s: State, m: Move, t: State)
    requires m.Receive? && m.frame.OkFrame? && s.phase.Online? && t == s.(progress := true)
    requires Enumerates(m.env.order, t.subscriptions.Keys)
    ensures Explained(s, m, OnOk(t, m.frame.event, m.frame.accepted, m.frame.message, m.env))
  {
    var f := m.frame;
    var u := t.(wire := t.wire + [GotOk(f.event, f.accepted)]);
    if t.authentication.Some? && t.authentication.value.event == f.event {
      var key := t.authentication.value.publicKey;
      var v := u.(authentication := None, open := f.accepted);
      if !f.accepted {
        NotifyNotes(s, m, v, AuthenticationRejected(key, f.message), m.env);
      } else {
        var w := v.(wire := v.wire + Requests(v.subscriptions, Attempted(m.env.order, m.env.sends)));
        DisconnectNotes(s, m, w, m.env.disconnectNotifyOk);
        NotifyNotes(s, m, w, Authenticated(key), m.env);
      }
    } else {
      QueuesNone(s, m, OnOk(t, f.event, f.accepted, f.message, m.env));
    }
  }

  /** The challenge is queued first; what happens next may end the connection. */
  lemma ChallengeNotes(config: Config, s: State, m: Move, t: State)
    requires m.Receive? && m.frame.AuthFrame? && s.phase.Online? && t == s.(progress := true)
    ensures Explained(s, m, OnChallenge(config, t, m.frame.challenge, m.env))
  {
    var s' := OnChallenge(config, t, m.frame.challenge, m.env);
    var n := AuthChallenge(m.frame.challenge);
    if !m.env.notifyOk {
      DisconnectNotes(s, m, t.(wire := t.wire + [GotChallenge]), m.env.disconnectNotifyOk);
    } else {
      ChallengeQueues(config, t, m.frame.challenge, m.env);
      if s'.notes == s.notes + [n] { QueuesOne(s, m, s', n); } else { QueuesTwo(s, m, s', n); }
    }
  }

  lemma QueuesTwo(s: State, m: Move, s': State, n: Notification)
    requires s'.notes == s.notes + [n, Disconnected] && Caused(s, m, n) && n.AuthChallenge?
    requires s.phase.Online? && !s'.phase.Online?
    ensures Explained(s, m, s')
  {
  }

  lemma ChallengeQueues(config: Config, t: State, challenge: string, env: Env)
    requires env.notifyOk
    ensures var s' := OnChallenge(config, t, challenge, env);
            || s'.notes == t.notes + [AuthChallenge(challenge)]
            || (s'.notes == t.notes + [AuthChallenge(challenge), Disconnected] && !s'.phase.Online?)
  {
    assert t.notes + [AuthChallenge(challenge)] + [Disconnected] == t.notes + [AuthChallenge(challenge), Disconnected];
  }

  lemma FrameNotes(config: Config, s: State, m: Move)
    requires m.Receive? && Enabled(s, m)
    ensures Explained(s, m, Step(config, s, m))
  {
    var t := s.(progress := true);
    match m.frame
    case EventFrame(subscription, event) => NotifyNotes(s, m, t, Event(subscription, event), m.env);
    case EndOfStored(subscription) => NotifyNotes(s, m, t, EndOfStoredEvents(subscription), m.env);
    case ClosedFrame(subscription, message) => NotifyNotes(s, m, t, Closed(subscription, message), m.env);
    case NoticeFrame(message) => NotifyNotes(s, m, t, Notice(message), m.env);
    case OkFrame(_, _, _) => OkNotes(s, m, t);
    case AuthFrame(_) => ChallengeNotes(config, s, m, t);
    case Undecodable => DisconnectNotes(s, m, t, m.env.disconnectNotifyOk);
  }

  /** Nothing queued, or the end of the connection. */
  predicate AtMostEnds(s: State, s': State) {
    s'.notes == s.notes || (s'.notes == s.notes + [Disconnected] && !s'.phase.Online?)
  }

  lemma PublishQueues(s: State, event: string, t: Ticket, env: Env)
    requires s.phase.Online?
    ensures AtMostEnds(s, OnPublish(s, event, t, env))
  {
  }

  lemma SubscribeQueues(s: State, id: string, filters: Filters, t: Ticket, env: Env)
    requires s.phase.Online?
    ensures AtMostEnds(s, OnSubscribe(s, id, filters, t, env))
  {
  }

  lemma CloseQueues(s: State, id: string, t: Ticket, env: Env)
    requires s.phase.Online?
    ensures AtMostEnds(s, OnClose(s, id, t, env))
  {
  }

  lemma CommandQueues(config: Config, s: State, m: Move)
    requires m.Dequeue? && Enabled(s, m)
    ensures if s.phase.Online? then AtMostEnds(s, Step(config, s, m)) else Step(config, s, m).notes == s.notes
  {
    if s.phase.Online? {
      match m.command
      case Publish(event, t) => PublishQueues(s, event, t, m.env);
      case Subscribe(id, filters, t) => SubscribeQueues(s, id, filters, t, m.env);
      case Close(id, t) => CloseQueues(s, id, t, m.env);
      case Shutdown =>
    }
  }

  lemma CommandNotes(config: Config, s: State, m: Move)
    requires m.Dequeue? && Enabled(s, m)
    ensures Explained(s, m, Step(config, s, m))
  {
    CommandQueues(config, s, m);
    var s' := Step(config, s, m);
    if s'.notes == s.notes { QueuesNone(s, m, s'); } else { QueuesOne(s, m, s', Disconnected); }
  }

  /** In every step the notifications queued are explained by the move. */
  lemma NotesOfStep(config: Config, s: State, m: Move)
    ensures Explained(s, m, Step(config, s, m))
  {
    var s' := Step(config, s, m);
    if !Enabled(s, m) {
      QueuesNone(s, m, s');
    } else {
      match m
      case ConnectOk(env) => if env.notifyOk { QueuesOne(s, m, s', Connected); } else { QueuesNone(s, m, s'); }
      case Dequeue(_, _) => CommandNotes(config, s, m);
      case Receive(_, _) => FrameNotes(config, s, m);
      case SocketLost(env) => DisconnectNotes(s, m, s, env.disconnectNotifyOk);
      case _ => QueuesNone(s, m, s');
    }
  }

  /** A frame that is only reported is reported as it came, unless the queue is full. */
  lemma FrameIsReported(config: Config, s: State, m: Move)
    requires m.Receive? && Reported(m.frame) && Enabled(s, m) && m.env.notifyOk
    ensures var s' := Step(config, s, m);
            |s'.notes| == |s.notes| + 1 && s.notes <= s'.notes && Reports(m.frame, s'.notes[|s.notes|])
  {
  }

  /** The `j`-th move of the run is the one that emitted note `k`. */
  predicate EmittedBy(config: Config, moves: seq<Move>, j: nat, k: nat) {
    && 0 < j <= |moves|
    && |Exec(config, moves[..j - 1]).notes| <= k < |Exec(config, moves[..j]).notes|
  }

  lemma LastMove(config: Config, moves: seq<Move>, j: nat)
    requires 0 < j <= |moves|
    ensures Exec(config, moves[..j]) == Step(config, Exec(config, moves[..j - 1]), moves[j - 1])
  {
    assert moves[..j][..j - 1] == moves[..j - 1];
  }

  lemma {:induction false} NotesStay(config: Config, moves: seq<Move>, j: nat)
    requires j <= |moves|
    ensures Exec(config, moves[..j]).notes <= Exec(config, moves).notes
    decreases |moves|
  {
    if j == |moves| {
      assert moves[..j] == moves;
    } else {
      var front := moves[..|moves| - 1];
      NotesStay(config, front, j);
      assert front[..j] == moves[..j];
      NotesOfStep(config, Exec(config, front), moves[|moves| - 1]);
    }
  }

  /** In every run, the move that queued a notification is one that calls for it. */
  lemma NoteIsCaused(config: Config, moves: seq<Move>, j: nat, k: nat)
    requires EmittedBy(config, moves, j, k)
    ensures k < |Exec(config, moves).notes|
    ensures Caused(Exec(config, moves[..j - 1]), moves[j - 1], Exec(config, moves).notes[k])
  {
    LastMove(config, moves, j);
    NotesOfStep(config, Exec(config, moves[..j - 1]), moves[j - 1]);
    NotesStay(config, moves, j);
  }

  /**
  Note `k` reports a frame if and only if the move that queued it received that very frame, and
  the queue had room.
  */
  lemma ReportIff(config: Config, moves: seq<Move>, j: nat, k: nat, frame: Frame)
    requires EmittedBy(config, moves, j, k) && Reported(frame)
    ensures k < |Exec(config, moves).notes|
    ensures Reports(frame, Exec(config, moves).notes[k]) <==>
            moves[j - 1].Receive? && moves[j - 1].frame == frame && moves[j - 1].env.notifyOk
  {
    NoteIsCaused(config, moves, j, k);
    LastMove(config, moves, j);
    NotesStay(config, moves, j);
    var s, m := Exec(config, moves[..j - 1]), moves[j - 1];
    if m.Receive? && m.frame == frame && m.env.notifyOk {
      if Enabled(s, m) { FrameIsReported(config, s, m); }
    }
  }

  /** What the OK for a pending authentication is reported as. */
  function Outcome(frame: Frame, key: string): Notification
    requires frame.OkFrame?
  {
    if frame.accepted then Authenticated(key) else AuthenticationRejected(key, frame.message)
  }

  /** The queue has room and, if the session opens, every replayed request is sent. */
  predicate Undisturbed(frame: Frame, env: Env)
    requires frame.OkFrame?
  {
    env.notifyOk && (frame.accepted ==> env.sends >= |env.order|)
  }

  lemma OkIsReported(config: Config, s: State, m: Move, key: string)
    requires m.Receive? && m.frame.OkFrame? && Enabled(s, m)
    requires s.authentication == Some(PendingAuthentication(m.frame.event, key))
    ensures var s' := Step(config, s, m);
            s'.notes == s.notes + if Undisturbed(m.frame, m.env) then [Outcome(m.frame, key)]
                                  else if m.env.disconnectNotifyOk then [Disconnected] else []
  {
    var t := s.(progress := true, wire := s.wire + [GotOk(m.frame.event, m.frame.accepted)]);
    var u := t.(authentication := None, open := m.frame.accepted);
    if !m.frame.accepted {
      assert Step(config, s, m) == Notify(u, AuthenticationRejected(key, m.frame.message), m.env);
    } else {
      var v := u.(wire := u.wire + Requests(u.subscriptions, Attempted(m.env.order, m.env.sends)));
      assert Step(config, s, m) == if m.env.sends < |m.env.order| then Disconnect(v, m.env.disconnectNotifyOk)
                                   else Notify(v, Authenticated(key), m.env);
    }
  }

  /** This move brought the verdict on the authentication that was pending. */
  predicate Decides(s: State, m: Move, key: string, n: Notification) {
    && m.Receive? && m.frame.OkFrame? && s.authentication == Some(PendingAuthentication(m.frame.event, key))
    && Undisturbed(m.frame, m.env) && n == Outcome(m.frame, key)
  }

  /** Note `k` reports an identity, or its rejection, if and only if the relay's OK for it was undisturbed. */
  lemma DecisionIff(config: Config, moves: seq<Move>, j: nat, k: nat, key: string, n: Notification)
    requires EmittedBy(config, moves, j, k) && (n.Authenticated? || n.AuthenticationRejected?) && n.publicKey == key
    ensures k < |Exec(config, moves).notes|
    ensures Exec(config, moves).notes[k] == n <==> Decides(Exec(config, moves[..j - 1]), moves[j - 1], key, n)
  {
    NoteIsCaused(config, moves, j, k);
    LastMove(config, moves, j);
    NotesStay(config, moves, j);
    var s, m := Exec(config, moves[..j - 1]), moves[j - 1];
    if m.Receive? && m.frame.OkFrame? && s.authentication == Some(PendingAuthentication(m.frame.event, key)) {
      if Enabled(s, m) { OkIsReported(config, s, m, key); }
    }
  }

  // The life of a connection.

  /** A command that would send something cannot. */
  predicate CannotSend(s: State, command: Command, env: Env) {
    && s.open && !env.sendOk
    && (command.Subscribe? || command.Close? || (command.Publish? && !Awaited(s, command.event)))
  }

  /** A frame that ends the connection: it cannot be read, reported or answered. */
  predicate FrameBreaks(config: Config, s: State, frame: Frame, env: Env) {
    match frame
    case Undecodable => true
    case AuthFrame(_) => !env.notifyOk || (config.signer.Some? && (env.signed.None? || !env.sendOk))
    case OkFrame(event, _, _) =>
      s.authentication.Some? && s.authentication.value.event == event && !Undisturbed(frame, env)
    case _ => !env.notifyOk
  }

  predicate Breaks(config: Config, s: State, m: Move) {
    || m.SocketLost?
    || (m.Dequeue? && CannotSend(s, m.command, m.env))
    || (m.Receive? && FrameBreaks(config, s, m.frame, m.env))
  }

  predicate Orders(m: Move) { m.CommandsClosed? || (m.Dequeue? && m.command.Shutdown?) }

  /** The state of the connection after a move, from what ends it and what begins it. */
  function NextPhase(config: Config, s: State, m: Move): Phase {
    if !Enabled(s, m) then s.phase
    else match s.phase
      case Connecting =>
        if m.ConnectFails? then Waiting
        else if m.ConnectOk? then
          if m.env.notifyOk && (OpensAuthenticated(config) ==> m.env.sends >= |m.env.order|) then Online else Stopped
        else Connecting
      case Online =>
        if Orders(m) then Stopped
        else if Breaks(config, s, m) then if m.env.disconnectNotifyOk then Waiting else Stopped
        else Online
      case Waiting => if Orders(m) then Stopped else if m.Dequeue? || m.WaitElapsed? then Connecting else Waiting
      case Stopped => Stopped
  }

  /** Where a connection goes when it breaks, or when it does not. */
  function AfterBreak(breaks: bool, env: Env): Phase {
    if !breaks then Online else if env.disconnectNotifyOk then Waiting else Stopped
  }

  lemma PublishPhase(s: State, event: string, t: Ticket, env: Env)
    requires s.phase.Online?
    ensures OnPublish(s, event, t, env).phase == AfterBreak(CannotSend(s, Publish(event, t), env), env)
  {
  }

  lemma SubscribePhase(s: State, id: string, filters: Filters, t: Ticket, env: Env)
    requires s.phase.Online?
    ensures OnSubscribe(s, id, filters, t, env).phase == AfterBreak(CannotSend(s, Subscribe(id, filters, t), env), env)
  {
  }

  lemma ClosePhase(s: State, id: string, t: Ticket, env: Env)
    requires s.phase.Online?
    ensures OnClose(s, id, t, env).phase == AfterBreak(CannotSend(s, Close(id, t), env), env)
  {
  }

  lemma CommandPhase(s: State, command: Command, env: Env)
    requires s.phase.Online?
    ensures OnCommand(s, command, env).phase == if command.Shutdown? then Stopped else AfterBreak(CannotSend(s, command, env), env)
  {
    match command
    case Publish(event, t) => PublishPhase(s, event, t, env);
    case Subscribe(id, filters, t) => SubscribePhase(s, id, filters, t, env);
    case Close(id, t) => ClosePhase(s, id, t, env);
    case Shutdown =>
  }

  lemma ChallengePhase(config: Config, s: State, challenge: string, env: Env)
    requires s.phase.Online?
    ensures OnChallenge(config, s, challenge, env).phase == AfterBreak(FrameBreaks(config, s, AuthFrame(challenge), env), env)
  {
  }

  lemma FramePhase(config: Config, s: State, frame: Frame, env: Env)
    requires s.phase.Online? && Enumerates(env.order, s.subscriptions.Keys)
    ensures OnFrame(config, s, frame, env).phase == AfterBreak(FrameBreaks(config, s, frame, env), env)
  {
    var t := s.(progress := true);
    match frame
    case OkFrame(_, _, _) => OkPhase(t, frame, env);
    case AuthFrame(challenge) => ChallengePhase(config, t, challenge, env);
    case _ =>
  }

  lemma OkPhase(s: State, frame: Frame, env: Env)
    requires frame.OkFrame? && s.phase.Online? && Enumerates(env.order, s.subscriptions.Keys)
    ensures OnOk(s, frame.event, frame.accepted, frame.message, env).phase
         == AfterBreak(s.authentication.Some? && s.authentication.value.event == frame.event && !Undisturbed(frame, env), env)
  {
  }

  /** At any point of any run the connection is lost, ended and begun for these reasons and no others. */
  lemma PhaseFollows(config: Config, moves: seq<Move>, m: Move)
    ensures Exec(config, moves + [m]).phase == NextPhase(config, Exec(config, moves), m)
  {
    ExecOne(config, moves, m);
    var s := Exec(config, moves);
    if Enabled(s, m) {
      match m
      case Dequeue(command, env) => if s.phase.Online? { CommandPhase(s, command, env); }
      case Receive(frame, env) => FramePhase(config, s, frame, env);
      case _ =>
    }
  }

  // Failed attempts.

  /** A frame or a keep-alive came on the session that is open, or was last. */
  predicate Progressed(config: Config, moves: seq<Move>)
    decreases |moves|
  {
    if moves == [] then false
    else
      var front, m := moves[..|moves| - 1], moves[|moves| - 1];
      if !Enabled(Exec(config, front), m) then Progressed(config, front)
      else if m.ConnectOk? then false
      else if m.Receive? || m.KeepAlive? then true
      else Progressed(config, front)
  }

  /** Attempts to connect in a row that failed, or whose session ended without progress. */
  function Streak(config: Config, moves: seq<Move>): nat
    decreases |moves|
  {
    if moves == [] then 0
    else
      var front, m := moves[..|moves| - 1], moves[|moves| - 1];
      var s, s' := Exec(config, front), Exec(config, moves);
      if m.ConnectFails? && s.phase.Connecting? then Streak(config, front) + 1
      else if s.phase.Online? && s'.phase.Waiting? then
        if Progressed(config, moves) then 0 else Streak(config, front) + 1
      else Streak(config, front)
  }

  /** A session that ends is counted by the progress it made; nothing else is. */
  predicate Counted(s: State, s': State) {
    && s'.progress == s.progress
    && s'.failures == if s.phase.Online? && s'.phase.Waiting? then if s.progress then 0 else BumpFailures(s.failures)
                      else s.failures
  }

  lemma PublishCounts(s: State, event: string, t: Ticket, env: Env)
    requires s.phase.Online?
    ensures Counted(s, OnPublish(s, event, t, env))
  {
  }

  lemma SubscribeCounts(s: State, id: string, filters: Filters, t: Ticket, env: Env)
    requires s.phase.Online?
    ensures Counted(s, OnSubscribe(s, id, filters, t, env))
  {
  }

  lemma CloseCounts(s: State, id: string, t: Ticket, env: Env)
    requires s.phase.Online?
    ensures Counted(s, OnClose(s, id, t, env))
  {
  }

  lemma OkCounts(s: State, event: string, accepted: bool, message: string, env: Env)
    requires s.phase.Online? && Enumerates(env.order, s.subscriptions.Keys)
    ensures Counted(s, OnOk(s, event, accepted, message, env))
  {
  }

  lemma ChallengeCounts(config: Config, s: State, challenge: string, env: Env)
    requires s.phase.Online?
    ensures Counted(s, OnChallenge(config, s, challenge, env))
  {
  }

  lemma FrameCounts(config: Config, s: State, frame: Frame, env: Env)
    requires s.phase.Online? && Enumerates(env.order, s.subscriptions.Keys)
    ensures Counted(s.(progress := true), OnFrame(config, s, frame, env))
  {
    var t := s.(progress := true);
    match frame
    case OkFrame(event, accepted, message) => OkCounts(t, event, accepted, message, env);
    case AuthFrame(challenge) => ChallengeCounts(config, t, challenge, env);
    case _ =>
  }

  lemma CommandCounts(s: State, command: Command, env: Env)
    requires s.phase.Online?
    ensures Counted(s, OnCommand(s, command, env))
  {
    match command
    case Publish(event, t) => PublishCounts(s, event, t, env);
    case Subscribe(id, filters, t) => SubscribeCounts(s, id, filters, t, env);
    case Close(id, t) => CloseCounts(s, id, t, env);
    case Shutdown =>
  }

  /** The counter and the mark of progress after one move. */
  predicate CountsMove(s: State, m: Move, s': State) {
    if !Enabled(s, m) then s' == s
    else if m.ConnectFails? then s'.failures == BumpFailures(s.failures) && s'.progress == s.progress
    else if m.ConnectOk? then s'.failures == s.failures && !s'.progress && !s'.phase.Waiting?
    else Counted(if m.Receive? || m.KeepAlive? then s.(progress := true) else s, s')
  }

  lemma CountStep(config: Config, s: State, m: Move)
    ensures CountsMove(s, m, Step(config, s, m))
  {
    if Enabled(s, m) {
      match m
      case Dequeue(command, env) => if s.phase.Online? { CommandCounts(s, command, env); }
      case Receive(frame, env) => FrameCounts(config, s, frame, env);
      case _ =>
    }
  }

  /** In every run the failure counter is the streak, as far as its 32 bits go. */
  lemma {:induction false} FailuresAreStreak(config: Config, moves: seq<Move>)
    ensures var s := Exec(config, moves);
            && s.progress == Progressed(config, moves)
            && s.failures == if Streak(config, moves) > 0xFFFF_FFFF then 0xFFFF_FFFF else Streak(config, moves)
    decreases |moves|
  {
    if moves != [] {
      var front, m := moves[..|moves| - 1], moves[|moves| - 1];
      FailuresAreStreak(config, front);
      CountStep(config, Exec(config, front), m);
    }
  }

  // Commands.

  lemma ExecOne(config: Config, moves: seq<Move>, m: Move)
    ensures Exec(config, moves + [m]) == Step(config, Exec(config, moves), m)
  {
    assert (moves + [m])[..|moves|] == moves;
  }

  /** Somebody still waits for this event's acknowledgement. */
  predicate Awaited(s: State, event: string) { event in s.pending && s.pending[event] !in s.gone }

  /**
  A publish taken at any point of any run: on a live session it sends its EVENT and waits, unless
  somebody waits for that event already; it is refused on a session that is not authenticated, and
  between connections.
  */
  lemma PublishTaken(config: Config, moves: seq<Move>, event: string, t: Ticket, env: Env)
    requires Enabled(Exec(config, moves), Dequeue(Publish(event, t), env))
    ensures var s, s' := Exec(config, moves), Exec(config, moves + [Dequeue(Publish(event, t), env)]);
            if s.phase.Waiting? then
              RepliesTo(s'.replies, t) == [Failed(LostConnection)] && s'.phase.Connecting? && s'.pending == s.pending
            else if !s.open then RepliesTo(s'.replies, t) == [Failed(NotAuthenticated)] && s'.wire == s.wire && s'.pending == s.pending
            else if Awaited(s, event) then RepliesTo(s'.replies, t) == [Failed(DuplicatePublish)] && s'.wire == s.wire && s'.pending == s.pending
            else if env.sendOk then
              && s'.phase.Online? && s'.wire == s.wire + [SentEvent(event, t)] && s'.pending == s.pending[event := t]
              && RepliesTo(s'.replies, t) == []
            else !s'.phase.Online? && RepliesTo(s'.replies, t) == [Failed(SendFailed)]
  {
    ExecOne(config, moves, Dequeue(Publish(event, t), env));
    RelayReplies.ReplyConservation(config, moves, t);
    RelayReplies.ExecKeepsReplies(config, moves);
    var s := Exec(config, moves);
    if s.phase.Online? && s.open && !Awaited(s, event) { PublishSends(s, event, t, env); }
  }

  lemma PublishSends(s: State, event: string, t: Ticket, env: Env)
    requires s.phase.Online? && s.open && !Awaited(s, event) && t !in s.taken && RelayReplies.ReplyInv(s)
    ensures var s' := OnPublish(s, event, t, env);
            if env.sendOk then
              && s'.phase.Online? && s'.wire == s.wire + [SentEvent(event, t)] && s'.pending == s.pending[event := t]
              && RepliesTo(s'.replies, t) == []
            else !s'.phase.Online? && RepliesTo(s'.replies, t) == [Failed(SendFailed)]
  {
    assert RelayReplies.Accounted(s, t);
  }

  /** What a subscribe has done by the time it is answered. */
  predicate SubscribeDone(s: State, s': State, id: string, filters: Filters, t: Ticket, env: Env) {
    if s.phase.Waiting? then
      RepliesTo(s'.replies, t) == [Failed(LostConnection)] && s'.phase.Connecting? && s'.subscriptions == s.subscriptions
    else if s.open && !env.sendOk then
      !s'.phase.Online? && RepliesTo(s'.replies, t) == [Failed(SendFailed)] && s'.subscriptions == s.subscriptions
    else
      && RepliesTo(s'.replies, t) == [Done] && s'.subscriptions == s.subscriptions[id := filters]
      && s'.phase.Online? && s'.wire == s.wire + if s.open then [SentReq(id, filters)] else []
  }

  lemma SubscribeAnswers(config: Config, s: State, id: string, filters: Filters, t: Ticket, env: Env)
    requires RelayReplies.ReplyInv(s) && Enabled(s, Dequeue(Subscribe(id, filters, t), env))
    ensures SubscribeDone(s, Step(config, s, Dequeue(Subscribe(id, filters, t), env)), id, filters, t, env)
  {
    FailedSendAnswer(s, t);
    Unanswered(s, t);
  }

  /** A subscribe is kept and asked for at once on a live session, kept for later on another, and refused between connections. */
  lemma SubscribeTaken(config: Config, moves: seq<Move>, id: string, filters: Filters, t: Ticket, env: Env)
    requires Enabled(Exec(config, moves), Dequeue(Subscribe(id, filters, t), env))
    ensures SubscribeDone(Exec(config, moves), Exec(config, moves + [Dequeue(Subscribe(id, filters, t), env)]), id, filters, t, env)
  {
    ExecOne(config, moves, Dequeue(Subscribe(id, filters, t), env));
    RelayReplies.ExecKeepsReplies(config, moves);
    SubscribeAnswers(config, Exec(config, moves), id, filters, t, env);
  }

  predicate CloseDone(s: State, s': State, id: string, t: Ticket, env: Env) {
    if s.phase.Waiting? then
      RepliesTo(s'.replies, t) == [Failed(LostConnection)] && s'.phase.Connecting? && s'.subscriptions == s.subscriptions
    else
      && s'.subscriptions == s.subscriptions - {id}
      && if s.open && !env.sendOk then !s'.phase.Online? && RepliesTo(s'.replies, t) == [Failed(SendFailed)]
         else && RepliesTo(s'.replies, t) == [Done]
              && s'.phase.Online? && s'.wire == s.wire + if s.open then [SentClose(id)] else []
  }

  lemma CloseAnswers(config: Config, s: State, id: string, t: Ticket, env: Env)
    requires RelayReplies.ReplyInv(s) && Enabled(s, Dequeue(Close(id, t), env))
    ensures CloseDone(s, Step(config, s, Dequeue(Close(id, t), env)), id, t, env)
  {
    FailedSendAnswer(s, t);
    Unanswered(s, t);
  }

  /** A close forgets the id, says so to the relay on a live session, and is refused between connections. */
  lemma CloseTaken(config: Config, moves: seq<Move>, id: string, t: Ticket, env: Env)
    requires Enabled(Exec(config, moves), Dequeue(Close(id, t), env))
    ensures CloseDone(Exec(config, moves), Exec(config, moves + [Dequeue(Close(id, t), env)]), id, t, env)
  {
    ExecOne(config, moves, Dequeue(Close(id, t), env));
    RelayReplies.ExecKeepsReplies(config, moves);
    CloseAnswers(config, Exec(config, moves), id, t, env);
  }

  lemma Unanswered(s: State, t: Ticket)
    requires RelayReplies.ReplyInv(s) && t !in s.taken
    ensures RepliesTo(s.replies, t) == []
  {
    assert RelayReplies.Accounted(s, t);
  }

  lemma FailedSendAnswer(s: State, t: Ticket)
    requires RelayReplies.ReplyInv(s) && t !in s.taken
    ensures t !in s.pending.Values
    ensures RepliesTo(AnswerAll(Answer(s.replies, t, Failed(SendFailed)), s.pending, Failed(LostConnection)), t)
         == RepliesTo(s.replies, t) + [Failed(SendFailed)]
  {
    assert RelayReplies.Accounted(s, t);
  }

  /** A challenge to an actor with a signer is answered, and the session waits for the OK. */
  lemma ChallengeTaken(config: Config, moves: seq<Move>, challenge: string, env: Env)
    requires Enabled(Exec(config, moves), Receive(AuthFrame(challenge), env)) && config.signer.Some? && env.notifyOk
    requires env.signed.Some? && env.sendOk
    ensures var s, s' := Exec(config, moves), Exec(config, moves + [Receive(AuthFrame(challenge), env)]);
            && s'.phase.Online? && !s'.open && s'.wire == s.wire + [GotChallenge, SentAuth(env.signed.value)]
            && s'.authentication == Some(PendingAuthentication(env.signed.value, config.signer.value))
            && s'.notes == s.notes + [AuthChallenge(challenge)]
  {
    ExecOne(config, moves, Receive(AuthFrame(challenge), env));
  }

  /** The OK for it opens the session, replays every subscription and is reported; a refusal closes it and is reported. */
  lemma AuthenticationSettled(config: Config, moves: seq<Move>, accepted: bool, message: string, env: Env)
    requires var s := Exec(config, moves);
             && s.authentication.Some? && env.notifyOk && env.sends >= |env.order|
             && Enabled(s, Receive(OkFrame(s.authentication.value.event, accepted, message), env))
    ensures var s := Exec(config, moves);
            var s' := Exec(config, moves + [Receive(OkFrame(s.authentication.value.event, accepted, message), env)]);
            var key := s.authentication.value.publicKey;
            && s'.phase.Online? && s'.open == accepted && s'.authentication == None
            && s'.notes == s.notes + [if accepted then Authenticated(key) else AuthenticationRejected(key, message)]
            && s'.wire == s.wire + [GotOk(s.authentication.value.event, accepted)]
                          + if accepted then Requests(s.subscriptions, env.order) else []
  {
    var s := Exec(config, moves);
    ExecOne(config, moves, Receive(OkFrame(s.authentication.value.event, accepted, message), env));
  }
}
