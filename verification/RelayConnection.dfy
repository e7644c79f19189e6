/**
The actor as the program runs it: an object whose fields change in place, with
the loops that replay subscriptions and drain the table of waiting publishers.
Every method is proved to be one move of the transition system in RelayActor.
*/
module RelayConnection {
  import opened Common
  import opened RelayActor
  import RelayReplies
  import RelayWire

  /** `fail_pending`: drain the table in whatever order the map yields. */
  method FailPending(pending: map<string, Ticket>, replies: map<Ticket, seq<Outcome>>, o: Outcome)
    returns (answered: map<Ticket, seq<Outcome>>)
    requires RelayReplies.NoSharedTickets(pending)
    ensures answered == AnswerAll(replies, pending, o)
  {
    var rest := pending;
    ghost var told: map<string, Ticket> := map[];
    answered := replies;
    RelayReplies.AnswerNone(replies, o);
    while rest != map[]
      invariant rest.Keys !! told.Keys && pending.Keys == rest.Keys + told.Keys
      invariant forall e <- rest :: rest[e] == pending[e]
      invariant forall e <- told :: told[e] == pending[e]
      invariant answered == AnswerAll(replies, told, o)
      decreases rest.Keys
    {
      var e :| e in rest;
      var t := rest[e];
      assert t !in told.Values;
      RelayReplies.AnswerOneMore(replies, told, e, t, o);
      answered := Answer(answered, t, o);
      told := told[e := t];
      rest := rest - {e};
    }
    assert told == pending;
  }

  /** What crossed the channels so far: sockets, notifications and replies. */
  datatype History = History(
    wire: seq<Wire>,
    past: seq<seq<Wire>>,
    notes: seq<Notification>,
    replies: map<Ticket, seq<Outcome>>,
    taken: set<Ticket>,
    gone: set<Ticket>,
    dropped: set<Ticket>)

  class Actor {
    const config: Config
    var phase: Phase
    var subscriptions: map<string, Filters>
    var pending: map<string, Ticket>
    var authentication: Option<PendingAuthentication>
    var open: bool
    var failures: nat
    var progress: bool
    var history: History

    ghost function View(): State
      reads this
    {
      State(phase, subscriptions, pending, authentication, open, failures, progress,
            history.wire, history.past, history.notes, history.replies, history.taken, history.gone, history.dropped)
    }

    /** Wire safety and reply conservation, as the object keeps them. */
    ghost predicate Valid()
      reads this
    {
      RelayWire.WireInv(config, View()) && RelayReplies.ReplyInv(View())
    }

    constructor (config: Config)
      ensures Valid() && View() == Init() && this.config == config
    {
      this.config := config;
      phase, subscriptions, pending, authentication := Connecting, map[], map[], None;
      open, failures, progress := false, 0, false;
      history := History([], [], [], map[], {}, {}, {});
      new;
      RelayReplies.ExecKeepsReplies(config, []);
      RelayWire.ExecKeepsWire(config, []);
    }

    /** `replay_subscriptions`: one request per mapped id, stopping at a failed send. */
    method ReplaySubscriptions(env: Env) returns (sent: bool)
      requires Enumerates(env.order, subscriptions.Keys)
      modifies this`history
      ensures history == old(history).(wire := old(history.wire) + Requests(subscriptions, Attempted(env.order, env.sends)))
      ensures sent <==> env.sends >= |env.order|
    {
      var i := 0;
      while i < |env.order|
        invariant 0 <= i <= |env.order| && i <= env.sends
        invariant history == old(history).(wire := old(history.wire) + Requests(subscriptions, env.order[..i]))
      {
        var id := env.order[i];
        history := history.(wire := history.wire + [SentReq(id, subscriptions[id])]);
        assert env.order[..i + 1] == env.order[..i] + [id];
        assert Requests(subscriptions, env.order[..i + 1])
            == Requests(subscriptions, env.order[..i]) + [SentReq(id, subscriptions[id])];
        if i == env.sends { return false; }
        i := i + 1;
      }
      assert env.order[..i] == env.order;
      sent := true;
    }

    /** The tail of the connection loop after `break true`. */
    method EndConnection(notifyOk: bool)
      requires RelayReplies.NoSharedTickets(pending)
      modifies this
      ensures View() == Disconnect(old(View()), notifyOk)
    {
      var answered := FailPending(pending, history.replies, Failed(LostConnection));
      history := history.(replies := answered, past := history.past + [history.wire], wire := []);
      pending, authentication, open := map[], None, false;
      if notifyOk {
        history := history.(notes := history.notes + [Disconnected]);
        phase, failures := Waiting, if progress then 0 else BumpFailures(failures);
      } else {
        phase := Stopped;
      }
    }

    /** The tail of the actor after `break false`. */
    method EndActor()
      requires RelayReplies.NoSharedTickets(pending)
      modifies this
      ensures View() == Stop(old(View()))
    {
      var answered := FailPending(pending, history.replies, Failed(ActorStopped));
      if phase == Online { history := history.(past := history.past + [history.wire]); }
      history := history.(replies := answered, wire := []);
      pending, phase, open := map[], Stopped, false;
    }

    method OpenConnection(env: Env)
      requires Enumerates(env.order, subscriptions.Keys)
      modifies this
      ensures View() == Connect(config, old(View()), env)
    {
      phase, open, progress := Online, OpensAuthenticated(config), false;
      history := history.(wire := []);
      var alive := env.notifyOk;
      if alive {
        history := history.(notes := history.notes + [Connected]);
        if open {
          alive := ReplaySubscriptions(env);
          assert [] + Requests(subscriptions, Attempted(env.order, env.sends))
              == Requests(subscriptions, Attempted(env.order, env.sends));
        }
      }
      if !alive {
        history := history.(past := history.past + [history.wire], wire := []);
        phase, open := Stopped, false;
      }
    }

    method HandlePublish(event: string, t: Ticket, env: Env)
      requires Valid() && phase == Online && t !in history.taken
      modifies this
      ensures View() == OnPublish(old(View()), event, t, env)
    {
      history := history.(taken := history.taken + {t});
      if !open {
        history := history.(replies := Answer(history.replies, t, Failed(NotAuthenticated)));
      } else if event in pending && pending[event] !in history.gone {
        history := history.(replies := Answer(history.replies, t, Failed(DuplicatePublish)));
      } else {
        if event in pending {
          history := history.(dropped := history.dropped + {pending[event]});
          pending := pending - {event};
        }
        SendEvent(event, t, env);
      }
    }

    method SendEvent(event: string, t: Ticket, env: Env)
      requires RelayReplies.NoSharedTickets(pending)
      modifies this
      ensures var s := old(View()).(wire := old(history.wire) + [SentEvent(event, t)]);
              View() == if env.sendOk then s.(pending := s.pending[event := t])
                        else Disconnect(Reply(s, t, Failed(SendFailed)), env.disconnectNotifyOk)
    {
      history := history.(wire := history.wire + [SentEvent(event, t)]);
      if env.sendOk {
        pending := pending[event := t];
      } else {
        history := history.(replies := Answer(history.replies, t, Failed(SendFailed)));
        EndConnection(env.disconnectNotifyOk);
      }
    }

    method HandleSubscribe(id: string, filters: Filters, t: Ticket, env: Env)
      requires Valid() && phase == Online && t !in history.taken
      modifies this
      ensures View() == OnSubscribe(old(View()), id, filters, t, env)
    {
      history := history.(taken := history.taken + {t});
      var sent := true;
      if open {
        history := history.(wire := history.wire + [SentReq(id, filters)]);
        sent := env.sendOk;
      }
      if sent {
        subscriptions := subscriptions[id := filters];
        history := history.(replies := Answer(history.replies, t, Done));
      } else {
        history := history.(replies := Answer(history.replies, t, Failed(SendFailed)));
        EndConnection(env.disconnectNotifyOk);
      }
    }

    method HandleClose(id: string, t: Ticket, env: Env)
      requires Valid() && phase == Online && t !in history.taken
      modifies this
      ensures View() == OnClose(old(View()), id, t, env)
    {
      history := history.(taken := history.taken + {t});
      subscriptions := subscriptions - {id};
      var sent := true;
      if open {
        history := history.(wire := history.wire + [SentClose(id)]);
        sent := env.sendOk;
      }
      if sent {
        history := history.(replies := Answer(history.replies, t, Done));
      } else {
        history := history.(replies := Answer(history.replies, t, Failed(SendFailed)));
        EndConnection(env.disconnectNotifyOk);
      }
    }

    /** `notify` inside a frame handler: a full queue ends the connection. */
    method QueueNotification(n: Notification, env: Env)
      requires RelayReplies.NoSharedTickets(pending)
      modifies this
      ensures View() == Notify(old(View()), n, env)
    {
      if env.notifyOk {
        history := history.(notes := history.notes + [n]);
      } else {
        EndConnection(env.disconnectNotifyOk);
      }
    }

    /** After an accepting OK: replay, then report, or give the connection up. */
    method ReplayAndReport(publicKey: string, env: Env)
      requires RelayReplies.NoSharedTickets(pending) && Enumerates(env.order, subscriptions.Keys)
      modifies this
      ensures var s := old(View());
              var replayed := s.(wire := s.wire + Requests(s.subscriptions, Attempted(env.order, env.sends)));
              View() == if env.sends < |env.order| then Disconnect(replayed, env.disconnectNotifyOk)
                        else Notify(replayed, Authenticated(publicKey), env)
    {
      var sent := ReplaySubscriptions(env);
      if sent {
        QueueNotification(Authenticated(publicKey), env);
      } else {
        EndConnection(env.disconnectNotifyOk);
      }
    }

    /** The OK for the pending AUTH event, either way. */
    method SettleAuthentication(accepted: bool, message: string, env: Env)
      requires RelayReplies.NoSharedTickets(pending) && Enumerates(env.order, subscriptions.Keys)
      requires authentication.Some?
      modifies this
      ensures var s := old(View()).(authentication := None, open := accepted);
              var publicKey := old(authentication).value.publicKey;
              var replayed := s.(wire := s.wire + Requests(s.subscriptions, Attempted(env.order, env.sends)));
              View() == if !accepted then Notify(s, AuthenticationRejected(publicKey, message), env)
                        else if env.sends < |env.order| then Disconnect(replayed, env.disconnectNotifyOk)
                        else Notify(replayed, Authenticated(publicKey), env)
    {
      var publicKey := authentication.value.publicKey;
      authentication, open := None, accepted;
      if accepted {
        ReplayAndReport(publicKey, env);
      } else {
        QueueNotification(AuthenticationRejected(publicKey, message), env);
      }
    }

    method HandleOk(event: string, accepted: bool, message: string, env: Env)
      requires RelayReplies.NoSharedTickets(pending) && Enumerates(env.order, subscriptions.Keys)
      modifies this
      ensures View() == OnOk(old(View()), event, accepted, message, env)
    {
      history := history.(wire := history.wire + [GotOk(event, accepted)]);
      if authentication.Some? && authentication.value.event == event {
        SettleAuthentication(accepted, message, env);
      } else if event in pending {
        history := history.(replies := Answer(history.replies, pending[event], if accepted then Acknowledged(event) else PublishRejected(message)));
        pending := pending - {event};
      }
    }

    method HandleChallenge(challenge: string, env: Env)
      requires RelayReplies.NoSharedTickets(pending)
      modifies this
      ensures View() == OnChallenge(config, old(View()), challenge, env)
    {
      history := history.(wire := history.wire + [GotChallenge]);
      if !env.notifyOk {
        EndConnection(env.disconnectNotifyOk);
        return;
      }
      history := history.(notes := history.notes + [AuthChallenge(challenge)]);
      if config.signer.None? { return; }
      open := false;
      if env.signed.None? {
        EndConnection(env.disconnectNotifyOk);
        return;
      }
      history := history.(wire := history.wire + [SentAuth(env.signed.value)]);
      if env.sendOk {
        authentication := Some(PendingAuthentication(env.signed.value, config.signer.value));
      } else {
        EndConnection(env.disconnectNotifyOk);
      }
    }

    method HandleRelayFrame(frame: Frame, env: Env)
      requires RelayReplies.NoSharedTickets(pending) && Enumerates(env.order, subscriptions.Keys)
      modifies this
      ensures View() == OnFrame(config, old(View()), frame, env)
    {
      progress := true;
      match frame
      case EventFrame(subscription, event) => QueueNotification(Event(subscription, event), env);
      case EndOfStored(subscription) => QueueNotification(EndOfStoredEvents(subscription), env);
      case OkFrame(event, accepted, message) => HandleOk(event, accepted, message, env);
      case ClosedFrame(subscription, message) => QueueNotification(Closed(subscription, message), env);
      case NoticeFrame(message) => QueueNotification(Notice(message), env);
      case AuthFrame(challenge) => HandleChallenge(challenge, env);
      case Undecodable => EndConnection(env.disconnectNotifyOk);
    }

    method HandleCommand(command: Command, env: Env)
      requires Valid() && FreshTicket(View(), command)
      requires phase == Online || phase == Waiting
      modifies this
      ensures View() == Step(config, old(View()), Dequeue(command, env))
    {
      match command
      case Shutdown => EndActor();
      case Publish(event, t) =>
        if phase == Online { HandlePublish(event, t, env); } else { Refuse(t); }
      case Subscribe(id, filters, t) =>
        if phase == Online { HandleSubscribe(id, filters, t, env); } else { Refuse(t); }
      case Close(id, t) =>
        if phase == Online { HandleClose(id, t, env); } else { Refuse(t); }
    }

    /** A command that arrives during the reconnect delay. */
    method Refuse(t: Ticket)
      modifies this
      ensures View() == old(View()).(taken := old(history.taken) + {t}, phase := Connecting,
                                     replies := Answer(old(history.replies), t, Failed(LostConnection)))
    {
      history := history.(taken := history.taken + {t});
      history := history.(replies := Answer(history.replies, t, Failed(LostConnection)));
      phase := Connecting;
    }

    /**
    One iteration of the actor, whatever woke it. The object follows the
    transition system exactly and so keeps both invariants in every run.
    */
    method Perform(m: Move)
      requires Valid() && Enabled(View(), m)
      modifies this
      ensures Valid() && View() == Step(config, old(View()), m)
    {
      RelayReplies.StepKeepsReplies(config, View(), m);
      RelayWire.StepKeepsWire(config, View(), m);
      match m
      case ConnectFails => phase, failures := Waiting, BumpFailures(failures);
      case ConnectOk(env) => OpenConnection(env);
      case Dequeue(command, env) => HandleCommand(command, env);
      case Receive(frame, env) => HandleRelayFrame(frame, env);
      case KeepAlive => progress := true;
      case SocketLost(env) => EndConnection(env.disconnectNotifyOk);
      case CommandsClosed => EndActor();
      case WaitElapsed => phase := Connecting;
      case CallerGone(t) => history := history.(gone := history.gone + {t});
    }
  }
}
