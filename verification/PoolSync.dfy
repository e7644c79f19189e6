/**
The pool's subscription bookkeeping against its relays. Commands travel through a
FIFO queue to each actor and are answered later, out of step with the pool.
*/
module PoolSync {
  import opened Common
  import opened RelayActor
  import RelayReplies
  import RelayRequests
  import RelayWire

  /** A `subscribe` call in flight: the reply channel per relay, and the relays seen to answer Ok. */
  datatype Call = Idle | Awaiting(id: string, filters: Filters, tickets: map<nat, Ticket>, ok: set<nat>)

  datatype Pool = Pool(
    actors: seq<State>,
    queues: seq<seq<Command>>,
    subscriptions: map<string, Filters>,
    sync: seq<set<string>>,
    call: Call,
    next: Ticket)

  /** `accepted` are the relays whose command queue had room. */
  datatype Action =
    | ActorMoves(relay: nat, move: Move)
    | ActorTakes(relay: nat, env: Env)
    | PublishTo(relay: nat, event: string)
    | SubscribeAll(id: string, filters: Filters, accepted: set<nat>)
    | Resubscribe(relay: nat, id: string)
    | CloseAll(id: string, accepted: set<nat>)
    | Settle(relay: nat)
    | Finish

  function Start(relays: nat): Pool {
    Pool(seq(relays, _ => Init()), seq(relays, _ => []), map[], seq(relays, _ => {}), Idle, 0)
  }

  /** Append one command per accepting relay; relay `i` replies on channel `next + i`. */
  function EnqueueAll(queues: seq<seq<Command>>, accepted: set<nat>, make: Ticket -> Command, next: Ticket)
    : (r: seq<seq<Command>>)
  {
    seq(|queues|, i requires 0 <= i < |queues| =>
      if i in accepted then queues[i] + [make(next + i)] else queues[i])
  }

  function Forget(sync: seq<set<string>>, id: string): seq<set<string>> {
    seq(|sync|, i requires 0 <= i < |sync| => sync[i] - {id})
  }

  function Mark(sync: seq<set<string>>, ok: set<nat>, id: string): seq<set<string>> {
    seq(|sync|, i requires 0 <= i < |sync| => if i in ok then sync[i] + {id} else sync[i])
  }

  predicate Shaped(p: Pool) { |p.actors| == |p.queues| == |p.sync| }

  function Next(configs: nat -> Config, p: Pool, a: Action): Pool
    requires Shaped(p)
  {
    var n := |p.actors|;
    match a
    case ActorMoves(i, m) =>
      if i < n && !m.Dequeue? then p.(actors := p.actors[i := Step(configs(i), p.actors[i], m)]) else p
    case ActorTakes(i, env) =>
      if i < n && p.queues[i] != [] && Enabled(p.actors[i], Dequeue(p.queues[i][0], env))
      then p.(actors := p.actors[i := Step(configs(i), p.actors[i], Dequeue(p.queues[i][0], env))],
              queues := p.queues[i := p.queues[i][1..]])
      else p
    case PublishTo(i, event) =>
      if i < n then p.(queues := p.queues[i := p.queues[i] + [Publish(event, p.next)]], next := p.next + 1) else p
    case SubscribeAll(id, filters, accepted) =>
      if !p.call.Idle? then p
      else if id in p.subscriptions && p.subscriptions[id] == filters && (forall s <- p.sync :: id in s) then p
      else p.(sync := Forget(p.sync, id),
              subscriptions := p.subscriptions[id := filters],
              queues := EnqueueAll(p.queues, accepted, (t: Ticket) => Subscribe(id, filters, t), p.next),
              call := Awaiting(id, filters, map i: nat | i in accepted && i < n :: p.next + i, {}),
              next := p.next + n)
    case Resubscribe(i, id) =>
      if !p.call.Idle? || i >= n || id !in p.subscriptions || id in p.sync[i] then p
      else p.(queues := p.queues[i := p.queues[i] + [Subscribe(id, p.subscriptions[id], p.next)]],
              call := Awaiting(id, p.subscriptions[id], map[i := p.next], {}),
              next := p.next + 1)
    case CloseAll(id, accepted) =>
      if !p.call.Idle? then p
      else p.(subscriptions := p.subscriptions - {id},
              sync := Forget(p.sync, id),
              queues := EnqueueAll(p.queues, accepted, (t: Ticket) => Close(id, t), p.next),
              next := p.next + n)
    case Settle(i) =>
      if p.call.Awaiting? && i < n && i in p.call.tickets && Done in RepliesTo(p.actors[i].replies, p.call.tickets[i])
      then p.(call := p.call.(ok := p.call.ok + {i}))
      else p
    case Finish =>
      if p.call.Idle? then p else p.(sync := Mark(p.sync, p.call.ok, p.call.id), call := Idle)
  }

  function Run(configs: nat -> Config, relays: nat, actions: seq<Action>): (p: Pool)
    ensures Shaped(p) && |p.actors| == relays
  {
    if actions == [] then Start(relays)
    else Next(configs, Run(configs, relays, actions[..|actions| - 1]), actions[|actions| - 1])
  }

  predicate About(c: Command, id: string) { (c.Subscribe? || c.Close?) && c.id == id }

  /** No queued command will touch this subscription. */
  predicate Settled(queue: seq<Command>, id: string) { forall c <- queue :: !About(c, id) }

  predicate Holds(s: State, id: string, filters: Filters) {
    id in s.subscriptions && s.subscriptions[id] == filters
  }

  /** Queued reply channels are new to the actor, distinct and already handed out. */
  predicate QueueFresh(s: State, queue: seq<Command>, next: Ticket) {
    && (forall c <- queue :: !c.Shutdown? && c.ticket < next && c.ticket !in s.taken)
    && (forall i, j | 0 <= i < j < |queue| :: queue[i].Shutdown? || queue[j].Shutdown? || queue[i].ticket != queue[j].ticket)
    && (forall t <- s.taken :: t < next)
  }

  /** A call's command on one relay is still queued, with nothing about its id behind it, ... */
  predicate Queued(s: State, queue: seq<Command>, id: string, filters: Filters, t: Ticket) {
    && t !in s.taken
    && exists k | 0 <= k < |queue| :: queue[k] == Subscribe(id, filters, t) && Settled(queue[k + 1..], id)
  }

  /** ... or was taken, and an Ok means the actor's map holds the filters. */
  predicate Processed(s: State, queue: seq<Command>, id: string, filters: Filters, t: Ticket) {
    && t in s.taken
    && Settled(queue, id)
    && (Done in RepliesTo(s.replies, t) ==> Holds(s, id, filters))
  }

  /** The invariant, relay by relay. */
  ghost predicate RelayInv(p: Pool, i: nat)
    requires Shaped(p) && i < |p.actors|
  {
    var s, queue := p.actors[i], p.queues[i];
    && RelayReplies.ReplyInv(s)
    && QueueFresh(s, queue, p.next)
    && (forall id <- p.sync[i] :: Settled(queue, id) && id in p.subscriptions && Holds(s, id, p.subscriptions[id]))
    && (p.call.Awaiting? ==>
          && Wants(p.subscriptions, p.call.id, p.call.filters)
          && (i in p.call.tickets ==>
                || Queued(s, queue, p.call.id, p.call.filters, p.call.tickets[i])
                || Processed(s, queue, p.call.id, p.call.filters, p.call.tickets[i]))
          && (i in p.call.ok ==>
                && i in p.call.tickets
                && Processed(s, queue, p.call.id, p.call.filters, p.call.tickets[i])
                && Holds(s, p.call.id, p.call.filters)))
  }

  predicate Wants(subscriptions: map<string, Filters>, id: string, filters: Filters) {
    id in subscriptions && subscriptions[id] == filters
  }

  ghost predicate PoolInv(p: Pool) {
    Shaped(p) && forall i: nat | i < |p.actors| :: RelayInv(p, i)
  }

  /** Moves other than taking a command leave the map alone and answer nobody Ok. */
  lemma MoveIsQuiet(config: Config, s: State, m: Move, t: Ticket)
    requires !m.Dequeue?
    ensures var s' := Step(config, s, m);
            && s'.subscriptions == s.subscriptions && s'.taken == s.taken
            && (Done in RepliesTo(s'.replies, t) ==> Done in RepliesTo(s.replies, t))
  {
    var s' := Step(config, s, m);
    if m.Receive? && Enabled(s, m) {
      FrameIsQuiet(config, s, m.frame, m.env, t);
    }
  }

  lemma FrameIsQuiet(config: Config, s: State, frame: Frame, env: Env, t: Ticket)
    requires s.phase.Online? && Enumerates(env.order, s.subscriptions.Keys)
    ensures var s' := OnFrame(config, s, frame, env);
            && s'.subscriptions == s.subscriptions && s'.taken == s.taken
            && (Done in RepliesTo(s'.replies, t) ==> Done in RepliesTo(s.replies, t))
  {
    RelayReplies.FrameEffect(config, s, frame, env);
    RelayRequests.FrameKeepsMap(config, s, frame, env);
    var s' := OnFrame(config, s, frame, env);
    if RelayReplies.Settles(s, frame) {
      RelayReplies.AnswerOthers(s.replies, s.pending[frame.event], RelayReplies.SettledAs(frame), t);
    } else if RelayReplies.Ended(s, s') {
      RelayReplies.AnswerAllEach(s.replies, s.pending, Failed(LostConnection), t);
    }
  }

  /** Outside the command's own subscription the map is the same. */
  ghost predicate SameElsewhere(s: State, s': State, c: Command) {
    forall id | !About(c, id) ::
      (id in s'.subscriptions <==> id in s.subscriptions)
      && (id in s.subscriptions ==> s'.subscriptions[id] == s.subscriptions[id])
  }

  /** Taking a command touches only its own subscription and its own reply channel. */
  lemma TakeEffect(config: Config, s: State, c: Command, env: Env, t: Ticket)
    requires RelayReplies.ReplyInv(s) && Enabled(s, Dequeue(c, env)) && !c.Shutdown?
    ensures var s' := Step(config, s, Dequeue(c, env));
            && s'.taken == s.taken + {c.ticket}
            && SameElsewhere(s, s', c)
            && (t != c.ticket && Done in RepliesTo(s'.replies, t) ==> Done in RepliesTo(s.replies, t))
            && (c.Subscribe? && Done in RepliesTo(s'.replies, c.ticket) ==> Holds(s', c.id, c.filters))
  {
    var s' := Step(config, s, Dequeue(c, env));
    assert RelayReplies.Accounted(s, c.ticket);
    if s.phase.Online? {
      match c
      case Publish(event, u) => PublishEffect(s, event, u, env, t);
      case Subscribe(id, filters, u) => SubscribeEffect(s, id, filters, u, env, t);
      case Close(id, u) => CloseEffect(s, id, u, env, t);
    } else {
      RelayReplies.AnswerOthers(s.replies, c.ticket, Failed(LostConnection), t);
      RelayReplies.AnswerOthers(s.replies, c.ticket, Failed(LostConnection), c.ticket);
    }
  }

  lemma PublishEffect(s: State, event: string, u: Ticket, env: Env, t: Ticket)
    requires s.phase.Online?
    ensures var s' := OnPublish(s, event, u, env);
            && s'.taken == s.taken + {u} && s'.subscriptions == s.subscriptions
            && (Done in RepliesTo(s'.replies, t) ==> Done in RepliesTo(s.replies, t))
  {
    RelayReplies.AnswerOthers(s.replies, u, Failed(NotAuthenticated), t);
    RelayReplies.AnswerOthers(s.replies, u, Failed(DuplicatePublish), t);
    if s.open && !env.sendOk { FailedPublishEffect(s, event, u, env, t); }
  }

  lemma FailedPublishEffect(s: State, event: string, u: Ticket, env: Env, t: Ticket)
    requires s.phase.Online? && s.open && !env.sendOk
    ensures var s' := OnPublish(s, event, u, env);
            && s'.taken == s.taken + {u} && s'.subscriptions == s.subscriptions
            && (Done in RepliesTo(s'.replies, t) ==> Done in RepliesTo(s.replies, t))
  {
    if event in s.pending && s.pending[event] !in s.gone {
      RelayReplies.AnswerOthers(s.replies, u, Failed(DuplicatePublish), t);
    } else {
      var sent := (if event in s.pending
                   then s.(dropped := s.dropped + {s.pending[event]}, pending := s.pending - {event})
                   else s).(taken := s.taken + {u}, wire := s.wire + [SentEvent(event, u)]);
      assert OnPublish(s, event, u, env) == Disconnect(Reply(sent, u, Failed(SendFailed)), env.disconnectNotifyOk);
      FailuresAreNotDone(s.replies, sent.pending, u, t);
    }
  }

  lemma FailuresAreNotDone(replies: map<Ticket, seq<Outcome>>, pending: map<string, Ticket>, u: Ticket, t: Ticket)
    ensures var after := AnswerAll(Answer(replies, u, Failed(SendFailed)), pending, Failed(LostConnection));
            Done in RepliesTo(after, t) ==> Done in RepliesTo(replies, t)
  {
    RelayReplies.AnswerOthers(replies, u, Failed(SendFailed), t);
    RelayReplies.AnswerAllEach(Answer(replies, u, Failed(SendFailed)), pending, Failed(LostConnection), t);
  }

  lemma SubscribeEffect(s: State, id: string, filters: Filters, u: Ticket, env: Env, t: Ticket)
    requires s.phase.Online? && RepliesTo(s.replies, u) == []
    ensures var s' := OnSubscribe(s, id, filters, u, env);
            && s'.taken == s.taken + {u}
            && (Done in RepliesTo(s'.replies, u) ==> Holds(s', id, filters))
            && (t != u && Done in RepliesTo(s'.replies, t) ==> Done in RepliesTo(s.replies, t))
            && SameElsewhere(s, s', Subscribe(id, filters, u))
  {
  }

  lemma CloseEffect(s: State, id: string, u: Ticket, env: Env, t: Ticket)
    requires s.phase.Online?
    ensures var s' := OnClose(s, id, u, env);
            && s'.taken == s.taken + {u}
            && (t != u && Done in RepliesTo(s'.replies, t) ==> Done in RepliesTo(s.replies, t))
            && SameElsewhere(s, s', Close(id, u))
  {
  }

  lemma MoveKeeps(config: Config, p: Pool, i: nat, m: Move)
    requires PoolInv(p) && i < |p.actors| && !m.Dequeue?
    ensures PoolInv(p.(actors := p.actors[i := Step(config, p.actors[i], m)]))
  {
    var s := p.actors[i];
    var p' := p.(actors := p.actors[i := Step(config, s, m)]);
    assert RelayInv(p, i);
    RelayReplies.StepKeepsReplies(config, s, m);
    forall t: Ticket ensures Done in RepliesTo(p'.actors[i].replies, t) ==> Done in RepliesTo(s.replies, t) {
      MoveIsQuiet(config, s, m, t);
    }
    MoveIsQuiet(config, s, m, 0);
    forall j: nat | j < |p'.actors| ensures RelayInv(p', j) { assert RelayInv(p, j); }
  }

  /** The call's own command leaves the front of the queue, or something else does. */
  lemma TakeKeepsCall(config: Config, s: State, queue: seq<Command>, env: Env, next: Ticket, id: string, filters: Filters, t: Ticket)
    requires RelayReplies.ReplyInv(s) && QueueFresh(s, queue, next) && queue != []
    requires Enabled(s, Dequeue(queue[0], env))
    requires Queued(s, queue, id, filters, t) || Processed(s, queue, id, filters, t)
    ensures var s' := Step(config, s, Dequeue(queue[0], env));
            || (!Processed(s, queue, id, filters, t) && Queued(s', queue[1..], id, filters, t))
            || Processed(s', queue[1..], id, filters, t)
  {
    var s' := Step(config, s, Dequeue(queue[0], env));
    TakeEffect(config, s, queue[0], env, t);
    assert queue[0] in queue;
    if Processed(s, queue, id, filters, t) {
      assert !About(queue[0], id);
    } else {
      var k :| 0 <= k < |queue| && queue[k] == Subscribe(id, filters, t) && Settled(queue[k + 1..], id);
      if k > 0 {
        assert queue[1..][k - 1] == queue[k] && queue[1..][k..] == queue[k + 1..];
      }
    }
  }

  lemma TakeKeeps(configs: nat -> Config, p: Pool, i: nat, env: Env)
    requires PoolInv(p) && i < |p.actors| && p.queues[i] != []
    requires Enabled(p.actors[i], Dequeue(p.queues[i][0], env))
    ensures PoolInv(Next(configs, p, ActorTakes(i, env)))
  {
    var s, queue := p.actors[i], p.queues[i];
    var c := queue[0];
    var p' := Next(configs, p, ActorTakes(i, env));
    assert RelayInv(p, i) && c in queue;
    RelayReplies.StepKeepsReplies(configs(i), s, Dequeue(c, env));
    TakeEffect(configs(i), s, c, env, 0);
    if p.call.Awaiting? && i in p.call.tickets {
      TakeKeepsCall(configs(i), s, queue, env, p.next, p.call.id, p.call.filters, p.call.tickets[i]);
    }
    assert forall id <- p.sync[i] :: !About(c, id);
    assert i in (if p.call.Awaiting? then p.call.ok else {}) ==> !About(c, p.call.id);
    forall j: nat | j < |p'.actors| ensures RelayInv(p', j) { assert RelayInv(p, j); }
  }

  /** A command appended behind the others. */
  lemma AppendKeepsFresh(s: State, queue: seq<Command>, c: Command, next: Ticket, next': Ticket)
    requires QueueFresh(s, queue, next) && !c.Shutdown? && next <= c.ticket < next'
    ensures QueueFresh(s, queue + [c], next')
  {
    assert forall x <- queue + [c] :: x in queue || x == c;
  }

  lemma AppendKeepsSettled(queue: seq<Command>, c: Command, id: string)
    requires Settled(queue, id) && !About(c, id)
    ensures Settled(queue + [c], id)
  {
    assert forall x <- queue + [c] :: x in queue || x == c;
  }

  lemma AppendKeepsQueued(s: State, queue: seq<Command>, c: Command, id: string, filters: Filters, t: Ticket)
    requires Queued(s, queue, id, filters, t) && !About(c, id)
    ensures Queued(s, queue + [c], id, filters, t)
  {
    var k :| 0 <= k < |queue| && queue[k] == Subscribe(id, filters, t) && Settled(queue[k + 1..], id);
    AppendKeepsSettled(queue[k + 1..], c, id);
    assert (queue + [c])[k] == queue[k] && (queue + [c])[k + 1..] == queue[k + 1..] + [c];
  }

  lemma AppendIsQueued(s: State, queue: seq<Command>, id: string, filters: Filters, t: Ticket)
    requires t !in s.taken
    ensures Queued(s, queue + [Subscribe(id, filters, t)], id, filters, t)
  {
    var longer := queue + [Subscribe(id, filters, t)];
    assert longer[|queue|] == Subscribe(id, filters, t) && longer[|queue| + 1..] == [];
  }

  lemma PublishKeeps(configs: nat -> Config, p: Pool, i: nat, event: string)
    requires PoolInv(p) && i < |p.actors|
    ensures PoolInv(Next(configs, p, PublishTo(i, event)))
  {
    var p' := Next(configs, p, PublishTo(i, event));
    var c := Publish(event, p.next);
    forall j: nat | j < |p'.actors| ensures RelayInv(p', j) {
      assert RelayInv(p, j);
      if j == i {
        var s, queue := p.actors[i], p.queues[i];
        AppendKeepsFresh(s, queue, c, p.next, p'.next);
        forall id | Settled(queue, id) ensures Settled(p'.queues[i], id) { AppendKeepsSettled(queue, c, id); }
        if p.call.Awaiting? && i in p.call.tickets && Queued(s, queue, p.call.id, p.call.filters, p.call.tickets[i]) {
          AppendKeepsQueued(s, queue, c, p.call.id, p.call.filters, p.call.tickets[i]);
        }
      }
    }
  }

  lemma SubscribeKeeps(configs: nat -> Config, p: Pool, id: string, filters: Filters, accepted: set<nat>)
    requires PoolInv(p) && p.call.Idle?
    ensures PoolInv(Next(configs, p, SubscribeAll(id, filters, accepted)))
  {
    var p' := Next(configs, p, SubscribeAll(id, filters, accepted));
    if p' == p { return; }
    forall j: nat | j < |p'.actors| ensures RelayInv(p', j) {
      SubscribeKeepsAt(configs, p, id, filters, accepted, j);
    }
  }

  lemma SubscribeKeepsAt(configs: nat -> Config, p: Pool, id: string, filters: Filters, accepted: set<nat>, j: nat)
    requires PoolInv(p) && p.call.Idle? && j < |p.actors|
    requires Next(configs, p, SubscribeAll(id, filters, accepted)) != p
    ensures var p' := Next(configs, p, SubscribeAll(id, filters, accepted));
            Shaped(p') && |p'.actors| == |p.actors| && RelayInv(p', j)
  {
    var p' := Next(configs, p, SubscribeAll(id, filters, accepted));
    assert RelayInv(p, j);
    if j in accepted {
      var s, queue, c := p.actors[j], p.queues[j], Subscribe(id, filters, p.next + j);
      AppendKeepsFresh(s, queue, c, p.next, p'.next);
      AppendIsQueued(s, queue, id, filters, p.next + j);
      forall x | x != id && Settled(queue, x) ensures Settled(p'.queues[j], x) { AppendKeepsSettled(queue, c, x); }
    }
  }

  lemma ResubscribeKeeps(configs: nat -> Config, p: Pool, i: nat, id: string)
    requires PoolInv(p)
    ensures PoolInv(Next(configs, p, Resubscribe(i, id)))
  {
    var p' := Next(configs, p, Resubscribe(i, id));
    if p' == p { return; }
    forall j: nat | j < |p'.actors| ensures RelayInv(p', j) {
      assert RelayInv(p, j);
      if j == i {
        var s, queue, c := p.actors[i], p.queues[i], Subscribe(id, p.subscriptions[id], p.next);
        AppendKeepsFresh(s, queue, c, p.next, p'.next);
        AppendIsQueued(s, queue, id, p.subscriptions[id], p.next);
        forall x | x != id && Settled(queue, x) ensures Settled(p'.queues[i], x) { AppendKeepsSettled(queue, c, x); }
      }
    }
  }

  lemma CloseKeeps(configs: nat -> Config, p: Pool, id: string, accepted: set<nat>)
    requires PoolInv(p) && p.call.Idle?
    ensures PoolInv(Next(configs, p, CloseAll(id, accepted)))
  {
    var p' := Next(configs, p, CloseAll(id, accepted));
    forall j: nat | j < |p'.actors| ensures RelayInv(p', j) {
      assert RelayInv(p, j);
      if j in accepted {
        var s, queue, c := p.actors[j], p.queues[j], Close(id, p.next + j);
        AppendKeepsFresh(s, queue, c, p.next, p'.next);
        forall x | x != id && Settled(queue, x) ensures Settled(p'.queues[j], x) { AppendKeepsSettled(queue, c, x); }
      }
    }
  }

  lemma ReplyKeeps(configs: nat -> Config, p: Pool, a: Action)
    requires PoolInv(p) && (a.Settle? || a.Finish?)
    ensures PoolInv(Next(configs, p, a))
  {
    var p' := Next(configs, p, a);
    forall j: nat | j < |p'.actors| ensures RelayInv(p', j) {
      assert RelayInv(p, j);
      assert RelayReplies.ReplyInv(p.actors[j]);
      if a.Settle? && p' != p && j == a.relay {
        assert RelayReplies.Accounted(p.actors[j], p.call.tickets[j]);
      }
    }
  }

  lemma NextKeeps(configs: nat -> Config, p: Pool, a: Action)
    requires PoolInv(p)
    ensures PoolInv(Next(configs, p, a))
  {
    if Next(configs, p, a) == p { return; }
    match a
    case ActorMoves(i, m) => MoveKeeps(configs(i), p, i, m);
    case ActorTakes(i, env) => TakeKeeps(configs, p, i, env);
    case PublishTo(i, event) => PublishKeeps(configs, p, i, event);
    case SubscribeAll(id, filters, accepted) => SubscribeKeeps(configs, p, id, filters, accepted);
    case Resubscribe(i, id) => ResubscribeKeeps(configs, p, i, id);
    case CloseAll(id, accepted) => CloseKeeps(configs, p, id, accepted);
    case Settle(_) => ReplyKeeps(configs, p, a);
    case Finish => ReplyKeeps(configs, p, a);
  }

  lemma {:induction false} RunKeeps(configs: nat -> Config, relays: nat, actions: seq<Action>)
    ensures PoolInv(Run(configs, relays, actions))
  {
    if actions == [] {
      RelayReplies.ExecKeepsReplies(configs(0), []);
    } else {
      RunKeeps(configs, relays, actions[..|actions| - 1]);
      NextKeeps(configs, Run(configs, relays, actions[..|actions| - 1]), actions[|actions| - 1]);
    }
  }

  /**
  Whenever the pool counts `id` as synchronised with relay `i`, that relay's actor
  holds exactly the pool's current filters for it, and nothing queued will change
  that, in every interleaving of calls, timeouts, reconnects and actor steps.
  */
  lemma SyncedMeansHeld(configs: nat -> Config, relays: nat, actions: seq<Action>, i: nat, id: string)
    requires i < relays && id in Run(configs, relays, actions).sync[i]
    ensures var p := Run(configs, relays, actions);
            && id in p.subscriptions && Holds(p.actors[i], id, p.subscriptions[id])
            && Settled(p.queues[i], id)
  {
    RunKeeps(configs, relays, actions);
    assert RelayInv(Run(configs, relays, actions), i);
  }

  lemma NextKeepsWire(configs: nat -> Config, p: Pool, a: Action, i: nat)
    requires Shaped(p) && i < |p.actors| && RelayWire.WireInv(configs(i), p.actors[i])
    ensures var p' := Next(configs, p, a); i < |p'.actors| && RelayWire.WireInv(configs(i), p'.actors[i])
  {
    match a
    case ActorMoves(j, m) => RelayWire.StepKeepsWire(configs(i), p.actors[i], m);
    case ActorTakes(j, env) =>
      if p.queues[i] != [] { RelayWire.StepKeepsWire(configs(i), p.actors[i], Dequeue(p.queues[i][0], env)); }
    case _ =>
  }

  lemma {:induction false} RunKeepsWire(configs: nat -> Config, relays: nat, actions: seq<Action>, i: nat)
    requires i < relays
    ensures RelayWire.WireInv(configs(i), Run(configs, relays, actions).actors[i])
    decreases |actions|
  {
    if actions == [] {
      RelayWire.ExecKeepsWire(configs(i), []);
    } else {
      RunKeepsWire(configs, relays, actions[..|actions| - 1], i);
      NextKeepsWire(configs, Run(configs, relays, actions[..|actions| - 1]), actions[|actions| - 1], i);
    }
  }

  /**
  From the pool's book-keeping down to the wire: on an authenticated session, the last REQ for a
  synchronised id carries the pool's current filters.
  */
  lemma SyncedIsOnTheWire(configs: nat -> Config, relays: nat, actions: seq<Action>, i: nat, id: string)
    requires i < relays && id in Run(configs, relays, actions).sync[i] && Live(Run(configs, relays, actions).actors[i])
    ensures var p := Run(configs, relays, actions);
            id in p.subscriptions && RelayWire.LastRequest(p.actors[i].wire, id) == Some(p.subscriptions[id])
  {
    SyncedMeansHeld(configs, relays, actions, i, id);
    RunKeepsWire(configs, relays, actions, i);
  }

  /** The pool object's own fields, updated by the loops around a subscribe call. */
  class RelayPool {
    var subscriptions: map<string, Filters>
    var sync: seq<set<string>>

    constructor (relays: nat)
      ensures subscriptions == Start(relays).subscriptions && sync == Start(relays).sync
    {
      subscriptions, sync := map[], seq(relays, _ => {});
    }

    method ForgetEverywhere(id: string)
      modifies this`sync
      ensures sync == Forget(old(sync), id)
    {
      for i := 0 to |sync|
        invariant |sync| == |old(sync)|
        invariant forall j | 0 <= j < |sync| :: sync[j] == if j < i then old(sync)[j] - {id} else old(sync)[j]
      {
        sync := sync[i := sync[i] - {id}];
      }
    }

    /** Up to the point where the commands are sent; false when nothing needs sending. */
    method BeginSubscribe(id: string, filters: Filters, ghost configs: nat -> Config, ghost p: Pool, ghost accepted: set<nat>)
      returns (sends: bool)
      requires Shaped(p) && p.call.Idle? && p.subscriptions == subscriptions && p.sync == sync
      modifies this
      ensures var p' := Next(configs, p, SubscribeAll(id, filters, accepted));
              subscriptions == p'.subscriptions && sync == p'.sync && (sends <==> p' != p)
    {
      var synced := id in subscriptions && subscriptions[id] == filters;
      for i := 0 to |sync|
        invariant synced <==>
                  && id in subscriptions && subscriptions[id] == filters
                  && forall j | 0 <= j < i :: id in sync[j]
      {
        synced := synced && id in sync[i];
      }
      if synced {
        assert forall s <- sync :: id in s;
        return false;
      }
      ForgetEverywhere(id);
      subscriptions := subscriptions[id := filters];
      sends := true;
    }

    /** After the replies: `results[i]` tells whether relay `i` answered Ok. */
    method FinishSubscribe(id: string, results: seq<bool>)
      requires |results| == |sync|
      modifies this`sync
      ensures sync == Mark(old(sync), (set i: nat | i < |results| && results[i]), id)
    {
      for i := 0 to |results|
        invariant |sync| == |old(sync)|
        invariant forall j | 0 <= j < |sync| ::
                    sync[j] == if j < i && results[j] then old(sync)[j] + {id} else old(sync)[j]
      {
        if results[i] { sync := sync[i := sync[i] + {id}]; }
      }
    }

    method CloseSubscription(id: string)
      modifies this
      ensures subscriptions == old(subscriptions) - {id} && sync == Forget(old(sync), id)
    {
      subscriptions := subscriptions - {id};
      ForgetEverywhere(id);
    }
  }
}
