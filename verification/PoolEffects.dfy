/**
What the pool's calls bring about, over whole runs: commands reach each relay's actor in the
order they were sent, the pool knows the subscriptions it was last asked for, and an id is
synchronised with exactly the relays that said so since.
*/
module PoolEffects {
  import opened Common
  import opened RelayActor
  import opened PoolSync

  function Before(actions: seq<Action>): seq<Action>
    requires actions != []
  {
    actions[..|actions| - 1]
  }

  function Latest(actions: seq<Action>): Action
    requires actions != []
  {
    actions[|actions| - 1]
  }

  // Which calls do anything.

  /** Nothing to do: the same filters are synchronised everywhere. */
  predicate Redundant(p: Pool, id: string, filters: Filters) {
    id in p.subscriptions && p.subscriptions[id] == filters && forall s <- p.sync :: id in s
  }

  predicate Subscribes(p: Pool, a: Action, id: string) {
    a.SubscribeAll? && a.id == id && p.call.Idle? && !Redundant(p, id, a.filters)
  }

  predicate Closes(p: Pool, a: Action, id: string) { a.CloseAll? && a.id == id && p.call.Idle? }

  predicate Repairs(p: Pool, a: Action, i: nat)
    requires Shaped(p)
  {
    && a.Resubscribe? && a.relay == i < |p.actors| && p.call.Idle?
    && a.id in p.subscriptions && a.id !in p.sync[i]
  }

  // The subscriptions.

  /** The filters of the last call about this id, if it was a subscribe. */
  function LastAsked(configs: nat -> Config, relays: nat, actions: seq<Action>, id: string): Option<Filters>
    decreases |actions|
  {
    if actions == [] then None
    else
      var p, a := Run(configs, relays, Before(actions)), Latest(actions);
      if Subscribes(p, a, id) then Some(a.filters)
      else if Closes(p, a, id) then None
      else LastAsked(configs, relays, Before(actions), id)
  }

  function Known(p: Pool, id: string): Option<Filters> {
    if id in p.subscriptions then Some(p.subscriptions[id]) else None
  }

  lemma SubscriptionStep(configs: nat -> Config, p: Pool, a: Action, id: string)
    requires Shaped(p)
    ensures Known(Next(configs, p, a), id)
         == if Subscribes(p, a, id) then Some(a.filters) else if Closes(p, a, id) then None else Known(p, id)
  {
  }

  /** In every run the pool knows exactly the subscriptions last asked for. */
  lemma {:induction false} SubscriptionsAreAsked(configs: nat -> Config, relays: nat, actions: seq<Action>, id: string)
    ensures Known(Run(configs, relays, actions), id) == LastAsked(configs, relays, actions, id)
    decreases |actions|
  {
    if actions != [] {
      SubscriptionsAreAsked(configs, relays, Before(actions), id);
      SubscriptionStep(configs, Run(configs, relays, Before(actions)), Latest(actions), id);
    }
  }

  // The queues.

  /** What this action sends to relay `i`. */
  function Sends(p: Pool, a: Action, i: nat): seq<Command>
    requires Shaped(p) && i < |p.actors|
  {
    match a
    case PublishTo(j, event) => if j == i then [Publish(event, p.next)] else []
    case SubscribeAll(id, filters, accepted) =>
      if Subscribes(p, a, id) && i in accepted then [Subscribe(id, filters, p.next + i)] else []
    case Resubscribe(_, id) => if Repairs(p, a, i) then [Subscribe(id, p.subscriptions[id], p.next)] else []
    case CloseAll(id, accepted) => if Closes(p, a, id) && i in accepted then [Close(id, p.next + i)] else []
    case _ => []
  }

  /** What relay `i` takes in this action. */
  function Takes(p: Pool, a: Action, i: nat): seq<Command>
    requires Shaped(p) && i < |p.actors|
  {
    if a.ActorTakes? && a.relay == i && p.queues[i] != [] && Enabled(p.actors[i], Dequeue(p.queues[i][0], a.env))
    then [p.queues[i][0]] else []
  }

  function AllSent(configs: nat -> Config, relays: nat, actions: seq<Action>, i: nat): seq<Command>
    requires i < relays
    decreases |actions|
  {
    if actions == [] then []
    else AllSent(configs, relays, Before(actions), i) + Sends(Run(configs, relays, Before(actions)), Latest(actions), i)
  }

  function AllTaken(configs: nat -> Config, relays: nat, actions: seq<Action>, i: nat): seq<Command>
    requires i < relays
    decreases |actions|
  {
    if actions == [] then []
    else AllTaken(configs, relays, Before(actions), i) + Takes(Run(configs, relays, Before(actions)), Latest(actions), i)
  }

  lemma QueueStep(configs: nat -> Config, p: Pool, a: Action, i: nat)
    requires Shaped(p) && i < |p.actors|
    ensures Shaped(Next(configs, p, a)) && |Next(configs, p, a).actors| == |p.actors|
    ensures p.queues[i] + Sends(p, a, i) == Takes(p, a, i) + Next(configs, p, a).queues[i]
    ensures Takes(p, a, i) == [] || Sends(p, a, i) == []
  {
  }

  lemma Rejoin<T>(before: seq<T>, queue: seq<T>, sent: seq<T>, taken: seq<T>, rest: seq<T>)
    requires queue + sent == taken + rest
    ensures (before + queue) + sent == (before + taken) + rest
  {
    assert (before + queue) + sent == before + (queue + sent);
    assert (before + taken) + rest == before + (taken + rest);
  }

  /** In every run what was sent to a relay is what it took, in that order, and what is still queued. */
  lemma {:induction false} FirstInFirstOut(configs: nat -> Config, relays: nat, actions: seq<Action>, i: nat)
    requires i < relays
    ensures AllSent(configs, relays, actions, i)
         == AllTaken(configs, relays, actions, i) + Run(configs, relays, actions).queues[i]
    decreases |actions|
  {
    if actions != [] {
      var p, a := Run(configs, relays, Before(actions)), Latest(actions);
      FirstInFirstOut(configs, relays, Before(actions), i);
      QueueStep(configs, p, a, i);
      Rejoin(AllTaken(configs, relays, Before(actions), i), p.queues[i], Sends(p, a, i), Takes(p, a, i),
             Next(configs, p, a).queues[i]);
    }
  }

  // The synchronised sets.

  /** The call that ends here was about this id, and relay `i` answered it Ok. */
  predicate Marks(p: Pool, a: Action, i: nat, id: string) {
    a.Finish? && p.call.Awaiting? && p.call.id == id && i in p.call.ok
  }

  /** A call has marked relay `i` since the last subscribe or close of the id. */
  predicate Marked(configs: nat -> Config, relays: nat, actions: seq<Action>, i: nat, id: string)
    decreases |actions|
  {
    if actions == [] then false
    else
      var p, a := Run(configs, relays, Before(actions)), Latest(actions);
      if Marks(p, a, i, id) then true
      else if Subscribes(p, a, id) || Closes(p, a, id) then false
      else Marked(configs, relays, Before(actions), i, id)
  }

  lemma SyncStep(configs: nat -> Config, p: Pool, a: Action, i: nat, id: string)
    requires Shaped(p) && i < |p.actors|
    ensures Shaped(Next(configs, p, a)) && |Next(configs, p, a).actors| == |p.actors|
    ensures id in Next(configs, p, a).sync[i]
       <==> Marks(p, a, i, id) || (id in p.sync[i] && !Subscribes(p, a, id) && !Closes(p, a, id))
  {
  }

  /** In every run an id counts as synchronised with exactly the relays that were marked since. */
  lemma {:induction false} SyncedIff(configs: nat -> Config, relays: nat, actions: seq<Action>, i: nat, id: string)
    requires i < relays
    ensures id in Run(configs, relays, actions).sync[i] <==> Marked(configs, relays, actions, i, id)
    decreases |actions|
  {
    if actions != [] {
      SyncedIff(configs, relays, Before(actions), i, id);
      SyncStep(configs, Run(configs, relays, Before(actions)), Latest(actions), i, id);
    }
  }

  /** A relay's Ok is noticed while its call waits, and not otherwise. */
  predicate Notices(p: Pool, a: Action, i: nat)
    requires Shaped(p)
  {
    && a.Settle? && a.relay == i < |p.actors| && p.call.Awaiting? && i in p.call.tickets
    && Done in RepliesTo(p.actors[i].replies, p.call.tickets[i])
  }

  lemma CallStep(configs: nat -> Config, p: Pool, a: Action, i: nat)
    requires Shaped(p) && i < |p.actors|
    ensures var call := Next(configs, p, a).call;
            && (p.call.Awaiting? && !a.Finish? ==>
                  && call.Awaiting? && call.id == p.call.id && call.filters == p.call.filters && call.tickets == p.call.tickets
                  && (i in call.ok <==> i in p.call.ok || Notices(p, a, i)))
            && (p.call.Awaiting? && a.Finish? ==> call.Idle?)
            && (p.call.Idle? && call.Awaiting? ==>
                  && call.ok == {}
                  && (a.SubscribeAll? ==> Subscribes(p, a, call.id) && call.filters == a.filters
                                          && (i in call.tickets <==> i in a.accepted)
                                          && (i in call.tickets ==> Sends(p, a, i) == [Subscribe(call.id, call.filters, call.tickets[i])]))
                  && (a.Resubscribe? ==> Repairs(p, a, a.relay) && call.id == a.id
                                         && call.tickets.Keys == {a.relay}
                                         && Sends(p, a, a.relay) == [Subscribe(call.id, call.filters, call.tickets[a.relay])]))
            && (Subscribes(p, a, if a.SubscribeAll? then a.id else "") || Repairs(p, a, i) ==> call.Awaiting?)
  {
  }

  // A subscription that gets through.

  const PLAIN: Config := Config(None, RequireWhenConfigured)
  const QUIET: Env := Env(true, true, true, [], 0, None)
  const THROUGH: seq<Action> :=
    [ActorMoves(0, ConnectOk(QUIET)), SubscribeAll("a", ["f"], {0}), ActorTakes(0, QUIET), Settle(0), Finish]

  lemma NextRun(configs: nat -> Config, relays: nat, actions: seq<Action>, n: nat)
    requires n < |actions|
    ensures Run(configs, relays, actions[..n + 1]) == Next(configs, Run(configs, relays, actions[..n]), actions[n])
  {
    assert actions[..n + 1][..n] == actions[..n];
  }

  /** One online, unauthenticating relay with a request in its queue. */
  predicate Asked(p: Pool) {
    && |p.actors| == |p.queues| == |p.sync| == 1
    && p.actors[0].phase == Online && p.actors[0].open && p.actors[0].subscriptions == map[]
    && p.actors[0].replies == map[] && p.actors[0].taken == {} && p.actors[0].wire == []
    && p.queues[0] == [Subscribe("a", ["f"], 0)] && p.call == Awaiting("a", ["f"], map[0 := 0], {})
  }

  predicate Answered(p: Pool) {
    && |p.actors| == |p.queues| == |p.sync| == 1
    && p.actors[0].wire == [SentReq("a", ["f"])] && Done in RepliesTo(p.actors[0].replies, 0)
    && p.call == Awaiting("a", ["f"], map[0 := 0], {})
  }

  lemma Asking(configs: nat -> Config, p: Pool)
    requires configs(0) == PLAIN && p == Start(1)
    ensures Asked(Next(configs, Next(configs, p, THROUGH[0]), THROUGH[1]))
  {
  }

  lemma Answering(configs: nat -> Config, p: Pool)
    requires Asked(p)
    ensures Answered(Next(configs, p, THROUGH[2]))
  {
    var s, c := p.actors[0], Subscribe("a", ["f"], 0);
    assert Enabled(s, Dequeue(c, QUIET));
    var s' := OnSubscribe(s, "a", ["f"], 0, QUIET);
    assert Done in RepliesTo(s'.replies, 0) && s'.wire == [SentReq("a", ["f"])];
    assert Next(configs, p, THROUGH[2]).actors[0] == s';
  }

  lemma Finishing(configs: nat -> Config, p: Pool)
    requires Answered(p)
    ensures var r := Next(configs, Next(configs, p, THROUGH[3]), THROUGH[4]);
            |r.sync| == |r.actors| == 1 && "a" in r.sync[0] && r.call.Idle? && r.actors[0].wire == [SentReq("a", ["f"])]
  {
  }

  /** Connect, subscribe, let the actor take it, see its Ok, finish: the id is synchronised and on the wire. */
  lemma SubscribeGetsThrough(configs: nat -> Config)
    requires configs(0) == PLAIN
    ensures var p := Run(configs, 1, THROUGH);
            "a" in p.sync[0] && p.call.Idle? && p.actors[0].wire == [SentReq("a", ["f"])]
  {
    assert THROUGH[..0] == [] && THROUGH[..5] == THROUGH;
    NextRun(configs, 1, THROUGH, 0);
    NextRun(configs, 1, THROUGH, 1);
    Asking(configs, Start(1));
    NextRun(configs, 1, THROUGH, 2);
    Answering(configs, Run(configs, 1, THROUGH[..2]));
    NextRun(configs, 1, THROUGH, 3);
    NextRun(configs, 1, THROUGH, 4);
    Finishing(configs, Run(configs, 1, THROUGH[..3]));
  }
}
