/**
Reply conservation of the relay actor: every command it takes from its queue is
answered exactly once, unless the caller has gone, and a publish is reported
accepted only on evidence from the connection that carried it.
*/
module RelayReplies {
  import opened Common
  import opened RelayActor

  /** Where the one answer owed to `t` is. */
  ghost predicate Accounted(s: State, t: Ticket) {
    var n := |RepliesTo(s.replies, t)|;
    if t !in s.taken then n == 0 && t !in s.pending.Values && t !in s.dropped
    else if t in s.pending.Values then n == 0 && t !in s.dropped
    else if t in s.dropped then n == 0 && t in s.gone
    else n == 1
  }

  predicate NoSharedTickets(pending: map<string, Ticket>) {
    forall e, e' | e in pending && e' in pending && pending[e] == pending[e'] :: e == e'
  }

  /** No two events wait on one channel, so answering all pending answers each once. */
  ghost predicate ReplyInv(s: State) {
    && (forall t: Ticket :: Accounted(s, t))
    && NoSharedTickets(s.pending)
    && (!s.phase.Online? ==> s.pending == map[])
  }

  /** The relay accepted `event` after this very EVENT frame, on one connection. */
  ghost predicate AcceptedOn(log: seq<Wire>, event: string, t: Ticket) {
    exists p: nat, k: nat | p < k < |log| :: log[p] == SentEvent(event, t) && log[k] == GotOk(event, true)
  }

  ghost predicate Evidence(s: State, event: string, t: Ticket) {
    AcceptedOn(s.wire, event, t) || exists log <- s.past :: AcceptedOn(log, event, t)
  }

  ghost predicate AckInv(s: State) {
    && (forall t: Ticket, event: string | Acknowledged(event) in RepliesTo(s.replies, t) :: Evidence(s, event, t))
    && (forall e | e in s.pending :: SentEvent(e, s.pending[e]) in s.wire)
  }

  lemma AnswerOthers(replies: map<Ticket, seq<Outcome>>, t: Ticket, o: Outcome, u: Ticket)
    ensures RepliesTo(Answer(replies, t, o), u) == RepliesTo(replies, u) + if u == t then [o] else []
  {
  }

  lemma AnswerAllEach(replies: map<Ticket, seq<Outcome>>, pending: map<string, Ticket>, o: Outcome, u: Ticket)
    ensures RepliesTo(AnswerAll(replies, pending, o), u) ==
            RepliesTo(replies, u) + if u in pending.Values then [o] else []
  {
  }

  lemma AnswerNone(replies: map<Ticket, seq<Outcome>>, o: Outcome)
    ensures AnswerAll(replies, map[], o) == replies
  {
    var all := AnswerAll(replies, map[], o);
    assert all.Keys == replies.Keys;
    forall u <- replies ensures all[u] == replies[u] { AnswerAllEach(replies, map[], o, u); }
  }

  /** Draining one entry more. */
  lemma AnswerOneMore(replies: map<Ticket, seq<Outcome>>, told: map<string, Ticket>, e: string, t: Ticket, o: Outcome)
    requires e !in told && t !in told.Values
    ensures Answer(AnswerAll(replies, told, o), t, o) == AnswerAll(replies, told[e := t], o)
  {
    var more := told[e := t];
    assert more[e] == t;
    forall u ensures u in more.Values <==> u in told.Values || u == t {
      if u in told.Values {
        var e' :| e' in told && told[e'] == u;
        assert e' in more && more[e'] == u;
      }
    }
    assert more.Values == told.Values + {t};
    var left, right := Answer(AnswerAll(replies, told, o), t, o), AnswerAll(replies, more, o);
    forall u: Ticket ensures RepliesTo(left, u) == RepliesTo(right, u) {
      AnswerOthers(AnswerAll(replies, told, o), t, o, u);
      AnswerAllEach(replies, told, o, u);
      AnswerAllEach(replies, more, o, u);
    }
    assert left.Keys == right.Keys;
    forall u <- left ensures left[u] == right[u] { assert RepliesTo(left, u) == RepliesTo(right, u); }
  }

  /** Every waiting ticket was told `o`. */
  predicate TableClosed(s: State, s': State, o: Outcome) {
    && s'.replies == AnswerAll(s.replies, s.pending, o) && s'.pending == map[]
    && s'.taken == s.taken && s'.gone == s.gone && s'.dropped == s.dropped
  }

  /** Neither the table nor the replies changed. */
  predicate SameTable(s: State, s': State) {
    && s'.replies == s.replies && s'.pending == s.pending && s'.taken == s.taken
    && s'.gone == s.gone && s'.dropped == s.dropped
  }

  /** The ticket waiting on `event` was told `o`. */
  predicate TableSettled(s: State, s': State, event: string, o: Outcome) {
    && event in s.pending
    && s'.replies == Answer(s.replies, s.pending[event], o) && s'.pending == s.pending - {event}
    && s'.taken == s.taken && s'.gone == s.gone && s'.dropped == s.dropped
  }

  /** Closing the table answers each waiting ticket once and empties it. */
  lemma CloseTableKeeps(s: State, s': State, o: Outcome)
    requires forall t: Ticket :: Accounted(s, t)
    requires TableClosed(s, s', o)
    ensures ReplyInv(s')
  {
    forall t: Ticket ensures Accounted(s', t) {
      assert Accounted(s, t);
      AnswerAllEach(s.replies, s.pending, o, t);
      if t in s.pending.Values {
        var e :| e in s.pending && s.pending[e] == t;
      }
    }
  }

  /** A newly taken ticket that is answered at once. */
  lemma AnswerTakenKeeps(s: State, t: Ticket, o: Outcome, s': State)
    requires ReplyInv(s) && t !in s.taken
    requires s'.replies == Answer(s.replies, t, o) && s'.taken == s.taken + {t}
    requires s'.pending == s.pending && s'.gone == s.gone && s'.dropped == s.dropped
    requires s'.phase.Online? || s.pending == map[]
    ensures ReplyInv(s')
  {
    assert Accounted(s, t);
    forall u: Ticket ensures Accounted(s', u) {
      assert Accounted(s, u);
      AnswerOthers(s.replies, t, o, u);
    }
  }

  /** A publish that reaches the table, first dropping a sender whose caller has gone. */
  lemma RegisterKeeps(s: State, event: string, t: Ticket, s': State)
    requires ReplyInv(s) && s.phase.Online? && t !in s.taken
    requires event in s.pending ==> s.pending[event] in s.gone
    requires s'.phase.Online? && s'.replies == s.replies && s'.gone == s.gone
    requires s'.taken == s.taken + {t}
    requires s'.dropped == s.dropped + if event in s.pending then {s.pending[event]} else {}
    requires s'.pending == s.pending[event := t]
    ensures ReplyInv(s')
  {
    assert Accounted(s, t);
    assert event in s'.pending && s'.pending[event] == t;
    forall u: Ticket ensures Accounted(s', u) {
      assert Accounted(s, u);
      if u in s.pending.Values {
        var e :| e in s.pending && s.pending[e] == u;
        if e != event { assert e in s'.pending && s'.pending[e] == u; }
      }
      if u in s'.pending.Values {
        var e :| e in s'.pending && s'.pending[e] == u;
        if e != event { assert e in s.pending && s.pending[e] == u; }
      }
    }
  }

  lemma PublishKeeps(s: State, event: string, t: Ticket, env: Env)
    requires ReplyInv(s) && s.phase.Online? && t !in s.taken
    ensures ReplyInv(OnPublish(s, event, t, env))
  {
    var s' := OnPublish(s, event, t, env);
    if !s.open {
      AnswerTakenKeeps(s, t, Failed(NotAuthenticated), s');
    } else if event in s.pending && s.pending[event] !in s.gone {
      AnswerTakenKeeps(s, t, Failed(DuplicatePublish), s');
    } else if env.sendOk {
      assert (s.pending - {event})[event := t] == s.pending[event := t];
      RegisterKeeps(s, event, t, s');
    } else {
      FailedPublishKeeps(s, event, t, env);
    }
  }

  lemma FailedPublishKeeps(s: State, event: string, t: Ticket, env: Env)
    requires ReplyInv(s) && Live(s) && t !in s.taken && !env.sendOk
    requires event in s.pending ==> s.pending[event] in s.gone
    ensures ReplyInv(OnPublish(s, event, t, env))
  {
    var s0 := Take(s, t);
    var s1 := if event in s0.pending
              then s0.(dropped := s0.dropped + {s0.pending[event]}, pending := s0.pending - {event})
              else s0;
    assert s1.pending == s.pending - {event};
    DropKeeps(s, event, s1, t);
    var s2 := Reply(s1.(wire := s1.wire + [SentEvent(event, t)]), t, Failed(SendFailed));
    forall u: Ticket ensures Accounted(s2, u) {
      assert Accounted(s1, u) || u == t;
      AnswerOthers(s1.replies, t, Failed(SendFailed), u);
    }
    CloseTableKeeps(s2, Disconnect(s2, env.disconnectNotifyOk), Failed(LostConnection));
  }

  /** Removing a closed sender accounts its ticket to `dropped`. */
  lemma DropKeeps(s: State, event: string, s': State, t: Ticket)
    requires ReplyInv(s) && t !in s.taken
    requires event in s.pending ==> s.pending[event] in s.gone
    requires s'.replies == s.replies && s'.gone == s.gone && s'.taken == s.taken + {t}
    requires s'.dropped == s.dropped + if event in s.pending then {s.pending[event]} else {}
    requires s'.pending == s.pending - {event}
    ensures forall u: Ticket | u != t :: Accounted(s', u)
    ensures RepliesTo(s'.replies, t) == [] && t !in s'.dropped && t !in s'.pending.Values
  {
    assert Accounted(s, t);
    forall u: Ticket | u != t ensures Accounted(s', u) {
      assert Accounted(s, u);
      if u in s.pending.Values {
        var e :| e in s.pending && s.pending[e] == u;
        if e != event { assert e in s'.pending && s'.pending[e] == u; }
      }
    }
  }

  /** An OK frame settles the ticket waiting on that event. */
  lemma SettleKeeps(s: State, event: string, o: Outcome, s': State)
    requires ReplyInv(s) && TableSettled(s, s', event, o) && s'.phase.Online?
    ensures ReplyInv(s')
  {
    var t := s.pending[event];
    forall u: Ticket ensures Accounted(s', u) {
      assert Accounted(s, u);
      AnswerOthers(s.replies, t, o, u);
      if u in s.pending.Values && u != t {
        var e :| e in s.pending && s.pending[e] == u;
        assert e in s'.pending && s'.pending[e] == u;
      }
    }
  }

  lemma SameTableKeeps(s: State, s': State)
    requires ReplyInv(s) && SameTable(s, s') && (s'.phase.Online? || s.pending == map[])
    ensures ReplyInv(s')
  {
    forall t: Ticket ensures Accounted(s', t) { assert Accounted(s, t); }
  }

  /** Whether an OK frame is read as an answer to a waiting publish. */
  predicate Settles(s: State, frame: Frame) {
    && frame.OkFrame? && frame.event in s.pending
    && !(s.authentication.Some? && s.authentication.value.event == frame.event)
  }

  function SettledAs(frame: Frame): Outcome
    requires frame.OkFrame?
  {
    if frame.accepted then Acknowledged(frame.event) else PublishRejected(frame.message)
  }

  /** The connection goes on and no publisher was answered. */
  predicate Continues(s: State, s': State) {
    s'.phase.Online? && SameTable(s, s') && s.wire <= s'.wire && s'.past == s.past
  }

  /** The connection ended, its log was kept and every publisher was told. */
  predicate Ended(s: State, s': State) {
    && !s'.phase.Online? && TableClosed(s, s', Failed(LostConnection)) && s'.wire == []
    && |s'.past| == |s.past| + 1 && s.past <= s'.past && s.wire <= s'.past[|s.past|]
  }

  lemma DisconnectEnds(s: State, s1: State, notifyOk: bool)
    requires Continues(s, s1)
    ensures Ended(s, Disconnect(s1, notifyOk))
  {
  }

  lemma NotifyEffect(s: State, s1: State, n: Notification, env: Env)
    requires Continues(s, s1)
    ensures var s' := Notify(s1, n, env); Continues(s, s') || Ended(s, s')
  {
    DisconnectEnds(s, s1, env.disconnectNotifyOk);
  }

  lemma OkEffect(s: State, event: string, accepted: bool, message: string, env: Env)
    requires s.phase.Online? && Enumerates(env.order, s.subscriptions.Keys)
    requires !Settles(s, OkFrame(event, accepted, message))
    ensures var s' := OnOk(s, event, accepted, message, env); Continues(s, s') || Ended(s, s')
  {
    var s1 := s.(wire := s.wire + [GotOk(event, accepted)]);
    if s.authentication.Some? && s.authentication.value.event == event {
      var publicKey := s.authentication.value.publicKey;
      var s2 := s1.(authentication := None, open := accepted);
      if accepted {
        var s3 := s2.(wire := s2.wire + Requests(s.subscriptions, Attempted(env.order, env.sends)));
        if env.sends < |env.order| {
          DisconnectEnds(s, s3, env.disconnectNotifyOk);
        } else {
          NotifyEffect(s, s3, Authenticated(publicKey), env);
        }
      } else {
        NotifyEffect(s, s2, AuthenticationRejected(publicKey, message), env);
      }
    }
  }

  lemma ChallengeEffect(config: Config, s: State, challenge: string, env: Env)
    requires s.phase.Online?
    ensures var s' := OnChallenge(config, s, challenge, env); Continues(s, s') || Ended(s, s')
  {
    var s1 := s.(wire := s.wire + [GotChallenge]);
    DisconnectEnds(s, s1, env.disconnectNotifyOk);
    var s2 := s1.(notes := s1.notes + [AuthChallenge(challenge)], open := false);
    DisconnectEnds(s, s2, env.disconnectNotifyOk);
    if env.signed.Some? {
      DisconnectEnds(s, s2.(wire := s2.wire + [SentAuth(env.signed.value)]), env.disconnectNotifyOk);
    }
  }

  /** What a frame can do to the table of waiting publishers. */
  lemma FrameEffect(config: Config, s: State, frame: Frame, env: Env)
    requires s.phase.Online? && Enumerates(env.order, s.subscriptions.Keys)
    ensures var s' := OnFrame(config, s, frame, env);
            if Settles(s, frame) then
              && s'.phase.Online? && s'.past == s.past
              && s'.wire == s.wire + [GotOk(frame.event, frame.accepted)]
              && TableSettled(s, s', frame.event, SettledAs(frame))
            else
              Continues(s, s') || Ended(s, s')
  {
    var s1 := s.(progress := true);
    match frame
    case EventFrame(subscription, event) => NotifyEffect(s, s1, Event(subscription, event), env);
    case EndOfStored(subscription) => NotifyEffect(s, s1, EndOfStoredEvents(subscription), env);
    case ClosedFrame(subscription, message) => NotifyEffect(s, s1, Closed(subscription, message), env);
    case NoticeFrame(message) => NotifyEffect(s, s1, Notice(message), env);
    case AuthFrame(challenge) => ChallengeEffect(config, s1, challenge, env);
    case Undecodable => DisconnectEnds(s, s1, env.disconnectNotifyOk);
    case OkFrame(event, accepted, message) =>
      if !Settles(s, frame) { OkEffect(s1, event, accepted, message, env); }
  }

  lemma FrameKeeps(config: Config, s: State, frame: Frame, env: Env)
    requires ReplyInv(s) && s.phase.Online? && Enumerates(env.order, s.subscriptions.Keys)
    ensures ReplyInv(OnFrame(config, s, frame, env))
  {
    var s' := OnFrame(config, s, frame, env);
    FrameEffect(config, s, frame, env);
    if Settles(s, frame) {
      SettleKeeps(s, frame.event, SettledAs(frame), s');
    } else if s'.phase.Online? {
      SameTableKeeps(s, s');
    } else {
      CloseTableKeeps(s, s', Failed(LostConnection));
    }
  }

  lemma CommandKeeps(s: State, command: Command, env: Env)
    requires ReplyInv(s) && s.phase.Online? && FreshTicket(s, command)
    ensures ReplyInv(OnCommand(s, command, env))
  {
    var s' := OnCommand(s, command, env);
    match command
    case Publish(event, t) => PublishKeeps(s, event, t, env);
    case Shutdown => CloseTableKeeps(s, s', Failed(ActorStopped));
    case _ =>
      var t := command.ticket;
      if s'.phase.Online? {
        AnswerTakenKeeps(s, t, Done, s');
      } else {
        var s1 := Reply(Take(s, t), t, Failed(SendFailed));
        AnswerTakenKeeps(s, t, Failed(SendFailed), s1);
        CloseTableKeeps(s1, s', Failed(LostConnection));
      }
  }

  /** Connecting answers nobody and starts a new log, closing it if the replay fails. */
  lemma ConnectEffect(config: Config, s: State, env: Env)
    requires s.wire == [] && Enumerates(env.order, s.subscriptions.Keys)
    ensures var s' := Connect(config, s, env);
            SameTable(s, s') && LogsGrow(s, s') && (!s'.phase.Online? ==> s'.wire == [])
  {
  }

  lemma RefusalKeeps(s: State, command: Command)
    requires ReplyInv(s) && s.phase.Waiting? && FreshTicket(s, command)
    ensures ReplyInv(RefuseWhileWaiting(s, command))
  {
    var s' := RefuseWhileWaiting(s, command);
    if command.Shutdown? {
      CloseTableKeeps(s, s', Failed(ActorStopped));
    } else {
      AnswerTakenKeeps(s, command.ticket, Failed(LostConnection), s');
    }
  }

  lemma StepKeepsReplies(config: Config, s: State, m: Move)
    requires ReplyInv(s)
    ensures ReplyInv(Step(config, s, m))
  {
    var s' := Step(config, s, m);
    if Enabled(s, m) {
      match m
      case Dequeue(command, env) =>
        if s.phase.Online? { CommandKeeps(s, command, env); } else { RefusalKeeps(s, command); }
      case Receive(frame, env) => FrameKeeps(config, s, frame, env);
      case SocketLost(env) => CloseTableKeeps(s, s', Failed(LostConnection));
      case CommandsClosed => CloseTableKeeps(s, s', Failed(ActorStopped));
      case CallerGone(t) =>
        forall u: Ticket ensures Accounted(s', u) { assert Accounted(s, u); }
      case _ => SameTableKeeps(s, s');
    }
  }

  lemma {:induction false} ExecKeepsReplies(config: Config, moves: seq<Move>)
    ensures ReplyInv(Exec(config, moves))
  {
    if moves == [] {
      forall t: Ticket ensures Accounted(Init(), t) {}
    } else {
      ExecKeepsReplies(config, moves[..|moves| - 1]);
      StepKeepsReplies(config, Exec(config, moves[..|moves| - 1]), moves[|moves| - 1]);
    }
  }

  /**
  Reply conservation: in every run a taken command has been answered at most
  once, and has been answered exactly once unless it is a publish still waiting
  on this connection or one whose caller had gone. Off a connection, and so at
  every connect, every early return and after the actor stops, none waits.
  */
  lemma ReplyConservation(config: Config, moves: seq<Move>, t: Ticket)
    ensures var s := Exec(config, moves);
            && (t !in s.taken ==> |RepliesTo(s.replies, t)| == 0)
            && (t in s.taken ==>
                  || |RepliesTo(s.replies, t)| == 1
                  || (|RepliesTo(s.replies, t)| == 0 && (t in s.gone || (s.phase.Online? && t in s.pending.Values))))
            && (!s.phase.Online? ==> s.pending == map[])
  {
    ExecKeepsReplies(config, moves);
    assert Accounted(Exec(config, moves), t);
  }

  /** The current log was extended, or was closed after being extended, or is a new one. */
  predicate LogsGrow(s: State, s': State) {
    || (s.wire <= s'.wire && s'.past == s.past)
    || (|s'.past| == |s.past| + 1 && s.past <= s'.past && s.wire <= s'.past[|s.past|])
  }

  lemma EvidenceCarries(s: State, s': State, event: string, t: Ticket)
    requires Evidence(s, event, t) && LogsGrow(s, s')
    ensures Evidence(s', event, t)
  {
    if AcceptedOn(s.wire, event, t) {
      var p: nat, k: nat :| p < k < |s.wire| && s.wire[p] == SentEvent(event, t) && s.wire[k] == GotOk(event, true);
      var longer := if s'.past == s.past then s'.wire else s'.past[|s.past|];
      assert longer[p] == s.wire[p] && longer[k] == s.wire[k];
      assert AcceptedOn(longer, event, t);
    } else {
      var log :| log in s.past && AcceptedOn(log, event, t);
      assert log in s'.past;
    }
  }

  /** A move that adds no acknowledgement. */
  lemma QuietKeepsAcks(s: State, s': State)
    requires AckInv(s) && LogsGrow(s, s')
    requires NoNewAck(s.replies, s'.replies)
    requires forall e | e in s'.pending :: SentEvent(e, s'.pending[e]) in s'.wire
    ensures AckInv(s')
  {
    forall t: Ticket, event: string | Acknowledged(event) in RepliesTo(s'.replies, t) ensures Evidence(s', event, t) {
      EvidenceCarries(s, s', event, t);
    }
  }

  lemma AcknowledgementKeeps(s: State, event: string, s': State)
    requires AckInv(s) && event in s.pending
    requires s'.wire == s.wire + [GotOk(event, true)] && s'.past == s.past
    requires s'.pending == s.pending - {event}
    requires s'.replies == Answer(s.replies, s.pending[event], Acknowledged(event))
    ensures AckInv(s')
  {
    var owner := s.pending[event];
    var p :| 0 <= p < |s.wire| && s.wire[p] == SentEvent(event, owner);
    assert s'.wire[p] == SentEvent(event, owner) && s'.wire[|s.wire|] == GotOk(event, true);
    assert AcceptedOn(s'.wire, event, owner);
    forall t: Ticket, other: string | Acknowledged(other) in RepliesTo(s'.replies, t) ensures Evidence(s', other, t) {
      AnswerOthers(s.replies, owner, Acknowledged(event), t);
      if !(t == owner && other == event) { EvidenceCarries(s, s', other, t); }
    }
  }

  /** Every acknowledgement in `replies'` was already in `replies`. */
  ghost predicate NoNewAck(replies: map<Ticket, seq<Outcome>>, replies': map<Ticket, seq<Outcome>>) {
    forall u: Ticket, event: string | Acknowledged(event) in RepliesTo(replies', u) ::
      Acknowledged(event) in RepliesTo(replies, u)
  }

  lemma PlainAnswer(replies: map<Ticket, seq<Outcome>>, t: Ticket, o: Outcome)
    requires !o.Acknowledged?
    ensures NoNewAck(replies, Answer(replies, t, o))
  {
  }

  lemma PlainAnswers(replies: map<Ticket, seq<Outcome>>, pending: map<string, Ticket>, o: Outcome)
    requires !o.Acknowledged?
    ensures NoNewAck(replies, AnswerAll(replies, pending, o))
  {
  }

  lemma PublishKeepsAcks(s: State, event: string, t: Ticket, env: Env)
    requires AckInv(s) && s.phase.Online?
    ensures var s' := OnPublish(s, event, t, env); AckInv(s') && (!s'.phase.Online? ==> s'.wire == [])
  {
    var s' := OnPublish(s, event, t, env);
    if !s.open {
      PlainAnswer(s.replies, t, Failed(NotAuthenticated));
      QuietKeepsAcks(s, s');
    } else if event in s.pending && s.pending[event] !in s.gone {
      PlainAnswer(s.replies, t, Failed(DuplicatePublish));
      QuietKeepsAcks(s, s');
    } else if env.sendOk {
      assert s'.wire[|s.wire|] == SentEvent(event, t);
      forall e | e in s'.pending ensures SentEvent(e, s'.pending[e]) in s'.wire {
        if e != event { assert SentEvent(e, s.pending[e]) in s.wire; }
      }
      QuietKeepsAcks(s, s');
    } else {
      FailedPublishKeepsAcks(s, event, t, env);
    }
  }

  lemma FailedPublishKeepsAcks(s: State, event: string, t: Ticket, env: Env)
    requires AckInv(s) && Live(s) && !env.sendOk
    requires event in s.pending ==> s.pending[event] in s.gone
    ensures var s' := OnPublish(s, event, t, env); AckInv(s') && s'.wire == []
  {
    PlainAnswer(s.replies, t, Failed(SendFailed));
    var left := if event in s.pending then s.pending - {event} else s.pending;
    PlainAnswers(Answer(s.replies, t, Failed(SendFailed)), left, Failed(LostConnection));
    QuietKeepsAcks(s, OnPublish(s, event, t, env));
  }

  lemma CommandKeepsAcks(s: State, command: Command, env: Env)
    requires AckInv(s) && s.phase.Online?
    ensures var s' := OnCommand(s, command, env); AckInv(s') && (!s'.phase.Online? ==> s'.wire == [])
  {
    var s' := OnCommand(s, command, env);
    match command
    case Publish(event, t) => PublishKeepsAcks(s, event, t, env);
    case Shutdown =>
      PlainAnswers(s.replies, s.pending, Failed(ActorStopped));
      QuietKeepsAcks(s, s');
    case _ =>
      PlainAnswer(s.replies, command.ticket, Done);
      PlainAnswer(s.replies, command.ticket, Failed(SendFailed));
      PlainAnswers(Answer(s.replies, command.ticket, Failed(SendFailed)), s.pending, Failed(LostConnection));
      QuietKeepsAcks(s, s');
  }

  lemma RefusalKeepsAcks(s: State, command: Command)
    requires AckInv(s) && s.phase.Waiting? && s.wire == [] && s.pending == map[]
    ensures var s' := RefuseWhileWaiting(s, command); AckInv(s') && s'.wire == []
  {
    if command.Shutdown? {
      PlainAnswers(s.replies, s.pending, Failed(ActorStopped));
    } else {
      PlainAnswer(s.replies, command.ticket, Failed(LostConnection));
    }
    QuietKeepsAcks(s, RefuseWhileWaiting(s, command));
  }

  lemma FrameKeepsAcks(config: Config, s: State, frame: Frame, env: Env)
    requires AckInv(s) && s.phase.Online? && Enumerates(env.order, s.subscriptions.Keys)
    ensures var s' := OnFrame(config, s, frame, env); AckInv(s') && (!s'.phase.Online? ==> s'.wire == [])
  {
    var s' := OnFrame(config, s, frame, env);
    FrameEffect(config, s, frame, env);
    if Settles(s, frame) && frame.accepted {
      AcknowledgementKeeps(s, frame.event, s');
    } else {
      if Settles(s, frame) {
        PlainAnswer(s.replies, s.pending[frame.event], SettledAs(frame));
      } else if Ended(s, s') {
        PlainAnswers(s.replies, s.pending, Failed(LostConnection));
      }
      QuietKeepsAcks(s, s');
    }
  }

  lemma StepKeepsAcks(config: Config, s: State, m: Move)
    requires AckInv(s) && (!s.phase.Online? ==> s.wire == [] && s.pending == map[])
    ensures var s' := Step(config, s, m); AckInv(s') && (!s'.phase.Online? ==> s'.wire == [])
  {
    var s' := Step(config, s, m);
    if Enabled(s, m) {
      match m
      case Dequeue(command, env) =>
        if s.phase.Online? { CommandKeepsAcks(s, command, env); } else { RefusalKeepsAcks(s, command); }
      case Receive(frame, env) => FrameKeepsAcks(config, s, frame, env);
      case SocketLost(_) =>
        PlainAnswers(s.replies, s.pending, Failed(LostConnection));
        QuietKeepsAcks(s, s');
      case CommandsClosed =>
        PlainAnswers(s.replies, s.pending, Failed(ActorStopped));
        QuietKeepsAcks(s, s');
      case ConnectOk(env) =>
        ConnectEffect(config, s, env);
        QuietKeepsAcks(s, s');
      case _ => QuietKeepsAcks(s, s');
    }
  }

  lemma {:induction false} ExecKeepsAcks(config: Config, moves: seq<Move>)
    ensures var s := Exec(config, moves); AckInv(s) && (!s.phase.Online? ==> s.wire == [])
  {
    if moves != [] {
      ExecKeepsAcks(config, moves[..|moves| - 1]);
      ExecKeepsReplies(config, moves[..|moves| - 1]);
      StepKeepsAcks(config, Exec(config, moves[..|moves| - 1]), moves[|moves| - 1]);
    }
  }

  /**
  A publisher is told its event was accepted only if, on one connection, the
  relay's accepting OK for that event arrived after this publisher's own EVENT.
  */
  lemma AcknowledgedOnlyOnEvidence(config: Config, moves: seq<Move>, t: Ticket, event: string)
    requires Acknowledged(event) in RepliesTo(Exec(config, moves).replies, t)
    ensures Evidence(Exec(config, moves), event, t)
  {
    ExecKeepsAcks(config, moves);
  }
}
