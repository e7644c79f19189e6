/**
The authenticated inbox runtime. It learns which relays are authenticated only
from notifications, which it reads late and in any interleaving with the actors.
*/
module InboxRuntime {
  import opened Common
  import opened RelayActor
  import opened RelayEffects
  import RelayWire

  /** How one notification from `relay` moves the runtime's set. */
  function Observe(known: set<nat>, relay: nat, n: Notification): set<nat> {
    match n
    case Connected => known - {relay}
    case Disconnected => known - {relay}
    case AuthChallenge(_) => known - {relay}
    case AuthenticationRejected(_, _) => known - {relay}
    case Authenticated(_) => known + {relay}
    case _ => known
  }

  /** The same for one relay alone, over a prefix of its notifications. */
  function Believes(notes: seq<Notification>): bool {
    if notes == [] then false else
    var n := notes[|notes| - 1];
    if n.Authenticated? then true
    else if n.Connected? || n.Disconnected? || n.AuthChallenge? || n.AuthenticationRejected? then false
    else Believes(notes[..|notes| - 1])
  }

  /** The actors the runtime spawns: a signer is set and authentication is required. */
  predicate Inboxed(config: Config) { config.signer.Some? && config.policy.RequireWhenConfigured? }

  /** Every identity an actor reports is the configured signer's. */
  predicate OwnIdentity(config: Config, notes: seq<Notification>) {
    forall n <- notes | n.Authenticated? :: Some(n.publicKey) == config.signer
  }

  /** Until the actor stops, a reader that is fully caught up is right. */
  predicate NoteInv(config: Config, s: State) {
    && (!s.phase.Stopped? ==> Believes(s.notes) == Live(s))
    && (s.phase.Stopped? ==> !Live(s))
    && OwnIdentity(config, s.notes)
  }

  lemma BelievesAppend(notes: seq<Notification>, n: Notification)
    ensures Believes(notes + [n]) ==
            if n.Authenticated? then true
            else if n.Connected? || n.Disconnected? || n.AuthChallenge? || n.AuthenticationRejected? then false
            else Believes(notes)
  {
    assert (notes + [n])[..|notes|] == notes;
  }

  /**
  What one step adds, seen from outside: each new notification, read as the last
  one, tells exactly whether the session is authenticated when the step ends, and
  delivering an event changes nothing about the session.
  */
  ghost predicate StepEmits(s: State, s': State) {
    && s.notes <= s'.notes
    && (forall k | |s.notes| < k <= |s'.notes| :: Believes(s'.notes[..k]) == Live(s'))
    && (forall k | |s.notes| <= k < |s'.notes| && s'.notes[k].Event? :: Live(s) == Live(s'))
  }

  lemma EmitNone(config: Config, s: State, s': State)
    requires NoteInv(config, s) && s'.notes == s.notes
    requires if s'.phase.Stopped? then !Live(s') else !s.phase.Stopped? && Live(s') == Live(s)
    ensures StepEmits(s, s') && NoteInv(config, s')
  {
  }

  lemma EmitOne(config: Config, s: State, s': State, n: Notification)
    requires NoteInv(config, s) && s'.notes == s.notes + [n]
    requires n.Authenticated? ==> Some(n.publicKey) == config.signer
    requires Believes(s.notes + [n]) == Live(s')
    requires n.Event? ==> Live(s) == Live(s')
    ensures StepEmits(s, s') && NoteInv(config, s')
  {
    assert s'.notes[..|s'.notes|] == s'.notes;
  }

  /** A notification of nothing authenticated, and the loss of the connection after it. */
  lemma EmitTwo(config: Config, s: State, s': State, n: Notification)
    requires NoteInv(config, s) && s'.notes == s.notes + [n] + [Disconnected] && n.AuthChallenge?
    requires !Live(s')
    ensures StepEmits(s, s') && NoteInv(config, s')
  {
    var noted := s.notes + [n];
    BelievesAppend(s.notes, n);
    BelievesAppend(noted, Disconnected);
    forall k | |s.notes| < k <= |s'.notes| ensures Believes(s'.notes[..k]) == Live(s') {
      assert s'.notes[..k] == if k == |s.notes| + 1 then noted else s'.notes;
    }
  }

  lemma DisconnectEmits(config: Config, s: State, s1: State, notifyOk: bool)
    requires NoteInv(config, s) && s1.notes == s.notes
    ensures StepEmits(s, Disconnect(s1, notifyOk)) && NoteInv(config, Disconnect(s1, notifyOk))
  {
    if notifyOk {
      BelievesAppend(s.notes, Disconnected);
      EmitOne(config, s, Disconnect(s1, notifyOk), Disconnected);
    } else {
      EmitNone(config, s, Disconnect(s1, notifyOk));
    }
  }

  lemma NotifyEmits(config: Config, s: State, s1: State, n: Notification, env: Env)
    requires NoteInv(config, s) && s1.notes == s.notes && s1.phase.Online?
    requires n.Authenticated? ==> Some(n.publicKey) == config.signer
    requires Believes(s.notes + [n]) == Live(s1)
    requires n.Event? ==> Live(s) == Live(s1)
    ensures StepEmits(s, Notify(s1, n, env)) && NoteInv(config, Notify(s1, n, env))
  {
    if env.notifyOk {
      EmitOne(config, s, Notify(s1, n, env), n);
    } else {
      DisconnectEmits(config, s, s1, env.disconnectNotifyOk);
    }
  }

  lemma ChallengeEmits(config: Config, s: State, challenge: string, env: Env)
    requires Inboxed(config) && NoteInv(config, s) && s.phase.Online?
    ensures StepEmits(s, OnChallenge(config, s, challenge, env)) && NoteInv(config, OnChallenge(config, s, challenge, env))
  {
    var s' := OnChallenge(config, s, challenge, env);
    BelievesAppend(s.notes, AuthChallenge(challenge));
    if !env.notifyOk {
      DisconnectEmits(config, s, s.(wire := s.wire + [GotChallenge]), env.disconnectNotifyOk);
    } else if s'.phase.Waiting? {
      EmitTwo(config, s, s', AuthChallenge(challenge));
    } else {
      EmitOne(config, s, s', AuthChallenge(challenge));
    }
  }

  lemma OkEmits(config: Config, s: State, event: string, accepted: bool, message: string, env: Env)
    requires Inboxed(config) && NoteInv(config, s) && s.phase.Online? && Enumerates(env.order, s.subscriptions.Keys)
    requires s.authentication.Some? ==> config.signer == Some(s.authentication.value.publicKey)
    ensures var s' := OnOk(s, event, accepted, message, env); StepEmits(s, s') && NoteInv(config, s')
  {
    var s1 := s.(wire := s.wire + [GotOk(event, accepted)]);
    if s.authentication.Some? && s.authentication.value.event == event {
      var publicKey := s.authentication.value.publicKey;
      BelievesAppend(s.notes, Authenticated(publicKey));
      BelievesAppend(s.notes, AuthenticationRejected(publicKey, message));
      var s2 := s1.(authentication := None, open := accepted);
      if accepted {
        var s3 := s2.(wire := s2.wire + Requests(s.subscriptions, Attempted(env.order, env.sends)));
        if env.sends < |env.order| {
          DisconnectEmits(config, s, s3, env.disconnectNotifyOk);
        } else {
          NotifyEmits(config, s, s3, Authenticated(publicKey), env);
        }
      } else {
        NotifyEmits(config, s, s2, AuthenticationRejected(publicKey, message), env);
      }
    } else {
      EmitNone(config, s, OnOk(s, event, accepted, message, env));
    }
  }

  lemma FrameEmits(config: Config, s: State, frame: Frame, env: Env)
    requires Inboxed(config) && NoteInv(config, s) && s.phase.Online? && Enumerates(env.order, s.subscriptions.Keys)
    requires s.authentication.Some? ==> config.signer == Some(s.authentication.value.publicKey)
    ensures var s' := OnFrame(config, s, frame, env); StepEmits(s, s') && NoteInv(config, s')
  {
    var s1 := s.(progress := true);
    match frame
    case OkFrame(event, accepted, message) => OkEmits(config, s1, event, accepted, message, env);
    case AuthFrame(challenge) => ChallengeEmits(config, s1, challenge, env);
    case Undecodable => DisconnectEmits(config, s, s1, env.disconnectNotifyOk);
    case EventFrame(subscription, event) =>
      BelievesAppend(s.notes, Event(subscription, event));
      NotifyEmits(config, s, s1, Event(subscription, event), env);
    case EndOfStored(subscription) =>
      BelievesAppend(s.notes, EndOfStoredEvents(subscription));
      NotifyEmits(config, s, s1, EndOfStoredEvents(subscription), env);
    case ClosedFrame(subscription, message) =>
      BelievesAppend(s.notes, Closed(subscription, message));
      NotifyEmits(config, s, s1, Closed(subscription, message), env);
    case NoticeFrame(message) =>
      BelievesAppend(s.notes, Notice(message));
      NotifyEmits(config, s, s1, Notice(message), env);
  }

  lemma CommandEmits(config: Config, s: State, command: Command, env: Env)
    requires NoteInv(config, s) && s.phase.Online?
    ensures var s' := OnCommand(s, command, env); StepEmits(s, s') && NoteInv(config, s')
  {
    var s' := OnCommand(s, command, env);
    if s'.phase.Online? || command.Shutdown? {
      EmitNone(config, s, s');
    } else {
      BelievesAppend(s.notes, Disconnected);
      if env.disconnectNotifyOk {
        EmitOne(config, s, s', Disconnected);
      } else {
        EmitNone(config, s, s');
      }
    }
  }

  lemma ConnectEmits(config: Config, s: State, env: Env)
    requires Inboxed(config) && NoteInv(config, s) && s.phase.Connecting? && Enumerates(env.order, s.subscriptions.Keys)
    ensures StepEmits(s, Connect(config, s, env)) && NoteInv(config, Connect(config, s, env))
  {
    BelievesAppend(s.notes, Connected);
    if env.notifyOk {
      EmitOne(config, s, Connect(config, s, env), Connected);
    } else {
      EmitNone(config, s, Connect(config, s, env));
    }
  }

  lemma StepEmissions(config: Config, s: State, m: Move)
    requires Inboxed(config) && NoteInv(config, s)
    requires s.phase.Online? && s.authentication.Some? ==> config.signer == Some(s.authentication.value.publicKey)
    ensures var s' := Step(config, s, m); StepEmits(s, s') && NoteInv(config, s')
  {
    if Enabled(s, m) {
      match m
      case ConnectOk(env) => ConnectEmits(config, s, env);
      case Dequeue(command, env) =>
        if s.phase.Online? { CommandEmits(config, s, command, env); } else { QuietEmits(config, s, m); }
      case Receive(frame, env) => FrameEmits(config, s, frame, env);
      case SocketLost(env) => DisconnectEmits(config, s, s, env.disconnectNotifyOk);
      case _ => QuietEmits(config, s, m);
    }
  }

  /** Moves that say nothing. */
  lemma QuietEmits(config: Config, s: State, m: Move)
    requires NoteInv(config, s) && Enabled(s, m) && !m.ConnectOk? && !m.Receive? && !m.SocketLost?
    requires m.Dequeue? ==> !s.phase.Online?
    ensures StepEmits(s, Step(config, s, m)) && NoteInv(config, Step(config, s, m))
  {
    EmitNone(config, s, Step(config, s, m));
  }

  lemma {:induction false} ExecNotes(config: Config, moves: seq<Move>)
    requires Inboxed(config)
    ensures NoteInv(config, Exec(config, moves))
  {
    if moves != [] {
      var front := moves[..|moves| - 1];
      ExecNotes(config, front);
      RelayWire.ExecKeepsWire(config, front);
      StepEmissions(config, Exec(config, front), moves[|moves| - 1]);
    }
  }

  lemma {:induction false} SomeStepEmitted(config: Config, moves: seq<Move>, k: nat) returns (j: nat)
    requires k < |Exec(config, moves).notes|
    ensures EmittedBy(config, moves, j, k)
    decreases |moves|
  {
    var front := moves[..|moves| - 1];
    if k < |Exec(config, front).notes| {
      j := SomeStepEmitted(config, front, k);
      assert front[..j] == moves[..j] && front[..j - 1] == moves[..j - 1];
    } else {
      j := |moves|;
      assert moves[..j] == moves;
    }
  }

  lemma LastStepEmits(config: Config, moves: seq<Move>)
    requires Inboxed(config) && moves != []
    ensures StepEmits(Exec(config, moves[..|moves| - 1]), Exec(config, moves))
  {
    var front := moves[..|moves| - 1];
    ExecNotes(config, front);
    RelayWire.ExecKeepsWire(config, front);
    StepEmissions(config, Exec(config, front), moves[|moves| - 1]);
  }

  /** The step that emitted note `k`, with what it added. */
  lemma StepOfNote(config: Config, moves: seq<Move>, j: nat, k: nat)
    requires Inboxed(config) && EmittedBy(config, moves, j, k)
    ensures StepEmits(Exec(config, moves[..j - 1]), Exec(config, moves[..j]))
    ensures Exec(config, moves[..j]).notes <= Exec(config, moves).notes
  {
    assert moves[..j][..j - 1] == moves[..j - 1];
    LastStepEmits(config, moves[..j]);
    NotesStay(config, moves, j);
  }

  /**
  A reader of any prefix of one relay's notifications is right about the session
  at the end of the very step that emitted the last one it read.
  */
  lemma PrefixIsExact(config: Config, moves: seq<Move>, j: nat, k: nat)
    requires Inboxed(config) && EmittedBy(config, moves, j, k)
    ensures k < |Exec(config, moves).notes|
    ensures Believes(Exec(config, moves).notes[..k + 1]) == Live(Exec(config, moves[..j]))
  {
    StepOfNote(config, moves, j, k);
    var notes, after := Exec(config, moves).notes, Exec(config, moves[..j]);
    assert notes[..k + 1] == after.notes[..k + 1];
  }

  /** An event read by a reader that believes in the session came over a live one. */
  lemma EventOnLiveSession(config: Config, moves: seq<Move>, j: nat, k: nat)
    requires Inboxed(config) && EmittedBy(config, moves, j, k) && k < |Exec(config, moves).notes|
    requires Exec(config, moves).notes[k].Event? && Believes(Exec(config, moves).notes[..k])
    ensures Live(Exec(config, moves[..j - 1])) && Live(Exec(config, moves[..j]))
  {
    var notes := Exec(config, moves).notes;
    assert notes[..k + 1] == notes[..k] + [notes[k]];
    BelievesAppend(notes[..k], notes[k]);
    PrefixIsExact(config, moves, j, k);
    StepOfNote(config, moves, j, k);
    assert Exec(config, moves[..j]).notes[k] == notes[k];
  }

  /**
  The whole system: one actor per relay and the runtime. `trace[i]` is what actor
  `i` has done, `read[i]` how many of its notifications the runtime has consumed.
  */
  datatype System = System(traces: seq<seq<Move>>, read: seq<nat>, known: set<nat>)

  /** An actor moves, the runtime consumes a notification, or the pool drops an event it has seen before. */
  datatype Action = Act(relay: nat, move: Move) | Consume(relay: nat) | Drop(relay: nat)

  function Start(relays: nat): System { System(seq(relays, _ => []), seq(relays, _ => 0), {}) }

  function Next(config: Config, sys: System, a: Action): System
    requires |sys.read| == |sys.traces|
  {
    if a.relay >= |sys.traces| then sys
    else match a
      case Act(i, m) => sys.(traces := sys.traces[i := sys.traces[i] + [m]])
      case Consume(i) =>
        var notes := Exec(config, sys.traces[i]).notes;
        if sys.read[i] >= |notes| then sys
        else sys.(read := sys.read[i := sys.read[i] + 1], known := Observe(sys.known, i, notes[sys.read[i]]))
      case Drop(i) =>
        var notes := Exec(config, sys.traces[i]).notes;
        if sys.read[i] >= |notes| || !notes[sys.read[i]].Event? then sys
        else sys.(read := sys.read[i := sys.read[i] + 1])
  }

  function Run(config: Config, relays: nat, actions: seq<Action>): (sys: System)
    ensures |sys.read| == |sys.traces| == relays
  {
    if actions == [] then Start(relays)
    else Next(config, Run(config, relays, actions[..|actions| - 1]), actions[|actions| - 1])
  }

  ghost predicate Consistent(config: Config, sys: System) {
    && |sys.read| == |sys.traces|
    && (forall i <- sys.known :: i < |sys.traces|)
    && forall i | 0 <= i < |sys.traces| :: ConsistentAt(config, sys, i)
  }

  ghost predicate ConsistentAt(config: Config, sys: System, i: nat)
    requires |sys.read| == |sys.traces| && i < |sys.traces|
  {
    var notes := Exec(config, sys.traces[i]).notes;
    sys.read[i] <= |notes| && (i in sys.known <==> Believes(notes[..sys.read[i]]))
  }

  lemma NextKeeps(config: Config, sys: System, a: Action)
    requires Inboxed(config) && Consistent(config, sys)
    ensures Consistent(config, Next(config, sys, a))
  {
    var sys' := Next(config, sys, a);
    if a.relay < |sys.traces| && sys' != sys {
      assert ConsistentAt(config, sys, a.relay);
      if a.Act? { ActKeeps(config, sys, a.relay, a.move); } else { ReadKeeps(config, sys, a); }
      forall i | 0 <= i < |sys'.traces| ensures ConsistentAt(config, sys', i) {
        assert ConsistentAt(config, sys, i);
      }
    }
  }

  lemma ActKeeps(config: Config, sys: System, i: nat, m: Move)
    requires Inboxed(config) && |sys.read| == |sys.traces| && i < |sys.traces| && ConsistentAt(config, sys, i)
    ensures ConsistentAt(config, Next(config, sys, Act(i, m)), i)
  {
    var longer := sys.traces[i] + [m];
    assert longer[..|sys.traces[i]|] == sys.traces[i];
    NotesStay(config, longer, |sys.traces[i]|);
    assert Exec(config, longer).notes[..sys.read[i]] == Exec(config, sys.traces[i]).notes[..sys.read[i]];
  }

  lemma ReadKeeps(config: Config, sys: System, a: Action)
    requires |sys.read| == |sys.traces| && a.relay < |sys.traces| && ConsistentAt(config, sys, a.relay)
    requires !a.Act? && Next(config, sys, a) != sys
    ensures ConsistentAt(config, Next(config, sys, a), a.relay)
  {
    var i := a.relay;
    var notes, read := Exec(config, sys.traces[i]).notes, sys.read[i];
    BelievesAppend(notes[..read], notes[read]);
    assert notes[..read + 1] == notes[..read] + [notes[read]];
  }

  lemma {:induction false} RunConsistent(config: Config, relays: nat, actions: seq<Action>)
    requires Inboxed(config)
    ensures Consistent(config, Run(config, relays, actions))
  {
    if actions != [] {
      RunConsistent(config, relays, actions[..|actions| - 1]);
      NextKeeps(config, Run(config, relays, actions[..|actions| - 1]), actions[|actions| - 1]);
    }
  }

  /**
  The delayed view is exact: in every interleaving of actors and reader, relay `i`
  is in the runtime's set exactly when the runtime has read something from it and
  the actor's session was authenticated at the end of the step, number `j` of its
  run, that emitted the last notification read.
  */
  lemma DelayedViewExact(config: Config, relays: nat, actions: seq<Action>, i: nat) returns (j: nat)
    requires Inboxed(config) && i < relays
    ensures var sys := Run(config, relays, actions);
            if sys.read[i] == 0 then i !in sys.known
            else && EmittedBy(config, sys.traces[i], j, sys.read[i] - 1)
                 && (i in sys.known <==> Live(Exec(config, sys.traces[i][..j])))
  {
    RunConsistent(config, relays, actions);
    var sys := Run(config, relays, actions);
    var moves, read := sys.traces[i], sys.read[i];
    assert ConsistentAt(config, sys, i);
    j := 0;
    if read > 0 {
      j := SomeStepEmitted(config, moves, read - 1);
      PrefixIsExact(config, moves, j, read - 1);
    }
  }

  /**
  An event the runtime would hand to the inbox reached the actor on a session that
  was authenticated before and after the step that delivered it.
  */
  lemma ReceivedOnlyWhenAuthenticated(config: Config, relays: nat, actions: seq<Action>, i: nat, j: nat)
    requires Inboxed(config) && i < relays && i in Run(config, relays, actions).known
    requires var sys := Run(config, relays, actions);
             var notes := Exec(config, sys.traces[i]).notes;
             && sys.read[i] < |notes| && notes[sys.read[i]].Event?
             && EmittedBy(config, sys.traces[i], j, sys.read[i])
    ensures var moves := Run(config, relays, actions).traces[i];
            j <= |moves| && Live(Exec(config, moves[..j - 1])) && Live(Exec(config, moves[..j]))
  {
    RunConsistent(config, relays, actions);
    var sys := Run(config, relays, actions);
    assert ConsistentAt(config, sys, i);
    EventOnLiveSession(config, sys.traces[i], j, sys.read[i]);
  }

  /** An identity other than the signer's is never reported, so that error cannot arise. */
  lemma OnlyOwnIdentity(config: Config, relays: nat, actions: seq<Action>, i: nat, k: nat)
    requires Inboxed(config) && i < relays
    requires k < |Exec(config, Run(config, relays, actions).traces[i]).notes|
    ensures var n := Exec(config, Run(config, relays, actions).traces[i]).notes[k];
            n.Authenticated? ==> Some(n.publicKey) == config.signer
  {
    ExecNotes(config, Run(config, relays, actions).traces[i]);
  }

  /** A notification as the pool hands it over. */
  datatype PoolNotification = PoolNotification(relay: nat, notification: Notification)

  function ObserveAll(known: set<nat>, feed: seq<PoolNotification>): set<nat> {
    if feed == [] then known
    else
      var last := feed[|feed| - 1];
      Observe(ObserveAll(known, feed[..|feed| - 1]), last.relay, last.notification)
  }

  lemma ObserveMore(known: set<nat>, feed: seq<PoolNotification>, p: PoolNotification)
    ensures ObserveAll(known, feed + [p]) == Observe(ObserveAll(known, feed), p.relay, p.notification)
  {
    assert (feed + [p])[..|feed|] == feed;
  }

  datatype Verdict =
    | Continue
    | Inbox(relay: nat, event: string)
    | AuthenticationRestored
    | Rejected(relay: nat, message: string)
    | UnexpectedIdentity(relay: nat)
    | UnauthenticatedEvent(relay: nat)
    | SubscriptionClosed(relay: nat, message: string)
    | Ready
    | FeedEnded

  lemma {:induction false} ObserveAllMembers(known: set<nat>, feed: seq<PoolNotification>, relays: nat)
    requires forall i <- known :: i < relays
    requires forall p <- feed :: p.relay < relays
    ensures forall i <- ObserveAll(known, feed) :: i < relays
  {
    if feed != [] { ObserveAllMembers(known, feed[..|feed| - 1], relays); }
  }

  /** A set of relay indices as large as the relay count misses none. */
  lemma {:induction false} FullSet(known: set<nat>, relays: nat)
    requires forall i <- known :: i < relays
    ensures |known| <= relays
    ensures |known| == relays ==> forall i: nat | i < relays :: i in known
  {
    if relays > 0 {
      var rest := known - {relays - 1};
      FullSet(rest, relays - 1);
      assert known == if relays - 1 in known then rest + {relays - 1} else rest;
    } else {
      assert known == {};
    }
  }

  /** The publish gate: with a full set, no relay's view says unauthenticated. */
  lemma PublishNeedsEveryRelay(config: Config, relays: nat, actions: seq<Action>, i: nat)
    requires Inboxed(config) && i < relays && |Run(config, relays, actions).known| == relays
    ensures var sys := Run(config, relays, actions);
            sys.read[i] > 0 && exists j: nat :: EmittedBy(config, sys.traces[i], j, sys.read[i] - 1) && Live(Exec(config, sys.traces[i][..j]))
  {
    RunConsistent(config, relays, actions);
    FullSet(Run(config, relays, actions).known, relays);
    var j := DelayedViewExact(config, relays, actions, i);
  }

  // What the runtime's loops are fed.

  /** The notifications consumed in a run, in order. */
  function Feed(config: Config, relays: nat, actions: seq<Action>): seq<PoolNotification> {
    if actions == [] then []
    else
      var front, a := actions[..|actions| - 1], actions[|actions| - 1];
      Feed(config, relays, front) + Fed(config, Run(config, relays, front), a)
  }

  function Fed(config: Config, sys: System, a: Action): seq<PoolNotification>
    requires |sys.read| == |sys.traces|
  {
    if a.Consume? && a.relay < |sys.traces| && sys.read[a.relay] < |Exec(config, sys.traces[a.relay]).notes|
    then [PoolNotification(a.relay, Exec(config, sys.traces[a.relay]).notes[sys.read[a.relay]])]
    else []
  }

  lemma FedIsObserved(config: Config, sys: System, a: Action)
    requires |sys.read| == |sys.traces|
    ensures var fed := Fed(config, sys, a);
            if fed == [] then Next(config, sys, a).known == sys.known
            else |fed| == 1 && Next(config, sys, a).known == Observe(sys.known, fed[0].relay, fed[0].notification)
  {
  }

  /** The set after folding the feed is the set of the system. */
  lemma {:induction false} FeedIsView(config: Config, relays: nat, actions: seq<Action>)
    ensures ObserveAll({}, Feed(config, relays, actions)) == Run(config, relays, actions).known
    decreases |actions|
  {
    if actions != [] {
      var front, a := actions[..|actions| - 1], actions[|actions| - 1];
      FeedIsView(config, relays, front);
      var feed, fed := Feed(config, relays, front), Fed(config, Run(config, relays, front), a);
      FedIsObserved(config, Run(config, relays, front), a);
      if fed != [] {
        assert fed == [fed[0]];
        ObserveMore({}, feed, fed[0]);
      } else {
        assert feed + [] == feed;
      }
    }
  }

  lemma FeedNext(config: Config, relays: nat, actions: seq<Action>, n: nat)
    requires n < |actions|
    ensures Feed(config, relays, actions[..n + 1])
         == Feed(config, relays, actions[..n]) + Fed(config, Run(config, relays, actions[..n]), actions[n])
  {
    assert actions[..n + 1][..n] == actions[..n];
  }

  lemma FirstPart(feed: seq<PoolNotification>, more: seq<PoolNotification>, k: nat)
    requires k <= |feed|
    ensures (feed + more)[..k] == feed[..k] && (k < |feed| ==> (feed + more)[k] == feed[k])
    ensures k == |feed| ==> (feed + more)[..k] == feed
  {
  }

  /** Notification `k` of the feed was consumed by action `n`, when exactly those before it had been. */
  lemma {:induction false} FeedAt(config: Config, relays: nat, actions: seq<Action>, k: nat) returns (n: nat)
    requires k < |Feed(config, relays, actions)|
    ensures n < |actions| && Feed(config, relays, actions[..n]) == Feed(config, relays, actions)[..k]
    ensures Fed(config, Run(config, relays, actions[..n]), actions[n]) == [Feed(config, relays, actions)[k]]
    decreases |actions|
  {
    var front, last := actions[..|actions| - 1], actions[|actions| - 1];
    var feed, fed := Feed(config, relays, front), Fed(config, Run(config, relays, front), last);
    if k < |feed| {
      n := FeedAt(config, relays, front, k);
      assert front[..n] == actions[..n];
    } else {
      n := |actions| - 1;
    }
    FirstPart(feed, fed, k);
  }

  lemma {:induction false} ObserveSplit(known: set<nat>, a: seq<PoolNotification>, b: seq<PoolNotification>)
    ensures ObserveAll(known, a + b) == ObserveAll(ObserveAll(known, a), b)
    decreases |b|
  {
    if b == [] {
      assert a + b == a;
    } else {
      ObserveSplit(known, a, b[..|b| - 1]);
      assert (a + b)[..|a + b| - 1] == a + b[..|b| - 1];
    }
  }

  /** Resuming with the rest of a feed judges as going through all of it. */
  lemma JudgeResumed(r: Runtime, feed: seq<PoolNotification>, n: nat, k: nat)
    requires n <= |feed| && k < |feed| - n
    ensures r.JudgeAt(ObserveAll({}, feed[..n]), feed[n..], k) == r.JudgeAt({}, feed, n + k)
  {
    ObserveSplit({}, feed[..n], feed[n..][..k]);
    assert feed[..n] + feed[n..][..k] == feed[..n + k];
  }

  /** The next notification of relay `i` was emitted at step `j`, on a session authenticated before and after. */
  predicate NextIsLive(config: Config, sys: System, i: nat, j: nat) {
    && i < |sys.traces| && i < |sys.read| && EmittedBy(config, sys.traces[i], j, sys.read[i])
    && Live(Exec(config, sys.traces[i][..j - 1])) && Live(Exec(config, sys.traces[i][..j]))
  }

  lemma InboxIsLive(r: Runtime, config: Config, actions: seq<Action>, i: nat) returns (j: nat)
    requires Inboxed(config)
    requires var sys := Run(config, r.relays, actions);
             var fed := Fed(config, sys, Consume(i));
             fed != [] && r.Judge(sys.known, fed[0]).Inbox?
    ensures NextIsLive(config, Run(config, r.relays, actions), i, j)
  {
    var sys := Run(config, r.relays, actions);
    j := SomeStepEmitted(config, sys.traces[i], sys.read[i]);
    ReceivedOnlyWhenAuthenticated(config, r.relays, actions, i, j);
  }

  /** Relay `i` sent this event for this subscription at step `j`, on an authenticated session. */
  predicate SentTo(config: Config, sys: System, i: nat, j: nat, subscription: string, event: string) {
    && i < |sys.traces| && i < |sys.read| && EmittedBy(config, sys.traces[i], j, sys.read[i])
    && var m := sys.traces[i][j - 1];
    && m.Receive? && m.frame == EventFrame(subscription, event) && m.env.notifyOk
    && Live(Exec(config, sys.traces[i][..j - 1]))
  }

  lemma BeliefBeforeEvent(config: Config, moves: seq<Move>, j: nat, k: nat)
    requires Inboxed(config) && EmittedBy(config, moves, j, k)
    requires moves[j - 1].Receive? && moves[j - 1].frame.EventFrame? && moves[j - 1].env.notifyOk
    ensures k < |Exec(config, moves).notes|
    ensures Believes(Exec(config, moves).notes[..k]) == Live(Exec(config, moves[..j - 1]))
  {
    var before, m := Exec(config, moves[..j - 1]), moves[j - 1];
    LastMove(config, moves, j);
    NotesStay(config, moves, j);
    NotesStay(config, moves, j - 1);
    if Enabled(before, m) {
      FrameIsReported(config, before, m);
      ExecNotes(config, moves[..j - 1]);
      assert Exec(config, moves).notes[..k] == before.notes;
    }
  }

  /**
  What the runtime does with the next notification of relay `i`, at any point of any run: it
  gives an event to the inbox if and only if the relay sent that event for this subscription on
  an authenticated session.
  */
  lemma InboxIff(r: Runtime, config: Config, actions: seq<Action>, i: nat, j: nat, event: string)
    requires Inboxed(config)
    requires var sys := Run(config, r.relays, actions);
             Fed(config, sys, Consume(i)) != [] && EmittedBy(config, sys.traces[i], j, sys.read[i])
    ensures var sys := Run(config, r.relays, actions);
            r.Judge(sys.known, Fed(config, sys, Consume(i))[0]) == Inbox(i, event)
            <==> SentTo(config, sys, i, j, r.subscription, event)
  {
    var sys := Run(config, r.relays, actions);
    var moves, k := sys.traces[i], sys.read[i];
    RunConsistent(config, r.relays, actions);
    assert ConsistentAt(config, sys, i);
    ReportIff(config, moves, j, k, EventFrame(r.subscription, event));
    var m := moves[j - 1];
    if m.Receive? && m.frame.EventFrame? && m.env.notifyOk { BeliefBeforeEvent(config, moves, j, k); }
  }

  lemma IdentityIsExpected(r: Runtime, config: Config, actions: seq<Action>, i: nat)
    requires Inboxed(config) && config.signer == Some(r.publicKey)
    requires Fed(config, Run(config, r.relays, actions), Consume(i)) != []
    ensures var sys := Run(config, r.relays, actions);
            !r.Judge(sys.known, Fed(config, sys, Consume(i))[0]).UnexpectedIdentity?
  {
    OnlyOwnIdentity(config, r.relays, actions, i, Run(config, r.relays, actions).read[i]);
  }

  /** The subscription ended: the relay closed it, in these words. */
  lemma ClosedIff(r: Runtime, config: Config, actions: seq<Action>, i: nat, j: nat, message: string)
    requires Inboxed(config)
    requires var sys := Run(config, r.relays, actions);
             Fed(config, sys, Consume(i)) != [] && EmittedBy(config, sys.traces[i], j, sys.read[i])
    ensures var sys := Run(config, r.relays, actions);
            var m := sys.traces[i][j - 1];
            r.Judge(sys.known, Fed(config, sys, Consume(i))[0]) == SubscriptionClosed(i, message)
            <==> m.Receive? && m.frame == ClosedFrame(r.subscription, message) && m.env.notifyOk
  {
    var sys := Run(config, r.relays, actions);
    ReportIff(config, sys.traces[i], j, sys.read[i], ClosedFrame(r.subscription, message));
  }

  /** An event is refused: the relay sent one for this subscription on a session that was not authenticated. */
  lemma UnauthenticatedIff(r: Runtime, config: Config, actions: seq<Action>, i: nat, j: nat)
    requires Inboxed(config)
    requires var sys := Run(config, r.relays, actions);
             Fed(config, sys, Consume(i)) != [] && EmittedBy(config, sys.traces[i], j, sys.read[i])
    ensures var sys := Run(config, r.relays, actions);
            var m := sys.traces[i][j - 1];
            r.Judge(sys.known, Fed(config, sys, Consume(i))[0]) == UnauthenticatedEvent(i)
            <==> && m.Receive? && m.frame.EventFrame? && m.frame.subscription == r.subscription && m.env.notifyOk
                 && !Live(Exec(config, sys.traces[i][..j - 1]))
  {
    var sys := Run(config, r.relays, actions);
    var moves, k := sys.traces[i], sys.read[i];
    RunConsistent(config, r.relays, actions);
    assert ConsistentAt(config, sys, i);
    NoteIsCaused(config, moves, j, k);
    var m := moves[j - 1];
    if m.Receive? && m.frame.EventFrame? && m.env.notifyOk {
      ReportIff(config, moves, j, k, m.frame);
      BeliefBeforeEvent(config, moves, j, k);
    }
  }

  /** The identity is refused: the relay refused the authentication that was pending, in these words. */
  lemma RejectedIff(r: Runtime, config: Config, actions: seq<Action>, i: nat, j: nat, message: string)
    requires Inboxed(config)
    requires var sys := Run(config, r.relays, actions);
             Fed(config, sys, Consume(i)) != [] && EmittedBy(config, sys.traces[i], j, sys.read[i])
    ensures var sys := Run(config, r.relays, actions);
            var s, m := Exec(config, sys.traces[i][..j - 1]), sys.traces[i][j - 1];
            r.Judge(sys.known, Fed(config, sys, Consume(i))[0]) == Rejected(i, message)
            <==> && m.Receive? && s.authentication.Some? && m.frame == OkFrame(s.authentication.value.event, false, message)
                 && m.env.notifyOk
  {
    var sys := Run(config, r.relays, actions);
    var moves, k := sys.traces[i], sys.read[i];
    var s, m, n := Exec(config, moves[..j - 1]), moves[j - 1], Fed(config, sys, Consume(i))[0].notification;
    if n.AuthenticationRejected? { DecisionIff(config, moves, j, k, n.publicKey, n); }
    if s.authentication.Some? {
      var key := s.authentication.value.publicKey;
      DecisionIff(config, moves, j, k, key, AuthenticationRejected(key, message));
    }
  }

  /** Authentication is complete again: this relay's was the last missing one, and it has just been accepted. */
  lemma RestoredIff(r: Runtime, config: Config, actions: seq<Action>, i: nat, j: nat)
    requires Inboxed(config) && config.signer == Some(r.publicKey)
    requires var sys := Run(config, r.relays, actions);
             Fed(config, sys, Consume(i)) != [] && EmittedBy(config, sys.traces[i], j, sys.read[i])
    ensures var sys := Run(config, r.relays, actions);
            var s, m := Exec(config, sys.traces[i][..j - 1]), sys.traces[i][j - 1];
            r.Judge(sys.known, Fed(config, sys, Consume(i))[0]) == AuthenticationRestored
            <==> && Decides(s, m, r.publicKey, Authenticated(r.publicKey))
                 && |sys.known| != r.relays && |sys.known + {i}| == r.relays
  {
    var sys := Run(config, r.relays, actions);
    DecisionIff(config, sys.traces[i], j, sys.read[i], r.publicKey, Authenticated(r.publicKey));
    OnlyOwnIdentity(config, r.relays, actions, i, sys.read[i]);
  }

  /** One consumed notification, judged. */
  lemma VerdictIsSound(r: Runtime, config: Config, actions: seq<Action>, i: nat, verdict: Verdict) returns (j: nat)
    requires Inboxed(config) && config.signer == Some(r.publicKey)
    requires var sys := Run(config, r.relays, actions);
             Fed(config, sys, Consume(i)) != [] && verdict == r.Judge(sys.known, Fed(config, sys, Consume(i))[0])
    ensures !verdict.UnexpectedIdentity?
    ensures verdict.Inbox? ==>
              && NextIsLive(config, Run(config, r.relays, actions), verdict.relay, j)
              && SentTo(config, Run(config, r.relays, actions), verdict.relay, j, r.subscription, verdict.event)
  {
    IdentityIsExpected(r, config, actions, i);
    j := 0;
    if verdict.Inbox? {
      j := InboxIsLive(r, config, actions, i);
      InboxIff(r, config, actions, i, j, verdict.event);
    }
  }

  /**
  Whatever the runtime's loops return for a feed that a run yields: an event is handed to the
  inbox only if the relay sent it for this subscription, on a session authenticated before and
  after that step; and the unexpected-identity error does not occur.
  */
  lemma VerdictsAreSound(r: Runtime, config: Config, actions: seq<Action>, k: nat) returns (n: nat, j: nat)
    requires Inboxed(config) && config.signer == Some(r.publicKey) && k < |Feed(config, r.relays, actions)|
    ensures n < |actions| && Feed(config, r.relays, actions[..n]) == Feed(config, r.relays, actions)[..k]
    ensures var verdict := r.JudgeAt({}, Feed(config, r.relays, actions), k);
            && !verdict.UnexpectedIdentity?
            && (verdict.Inbox? ==>
                  && NextIsLive(config, Run(config, r.relays, actions[..n]), verdict.relay, j)
                  && SentTo(config, Run(config, r.relays, actions[..n]), verdict.relay, j, r.subscription, verdict.event))
  {
    n := FeedAt(config, r.relays, actions, k);
    FeedIsView(config, r.relays, actions[..n]);
    assert actions[n] == Consume(actions[n].relay);
    j := VerdictIsSound(r, config, actions[..n], actions[n].relay, r.JudgeAt({}, Feed(config, r.relays, actions), k));
  }

  /** The next notification of relay `i` was emitted at step `j`, which left the session unauthenticated. */
  predicate NextIsRefused(config: Config, sys: System, i: nat, j: nat) {
    && i < |sys.traces| && i < |sys.read| && EmittedBy(config, sys.traces[i], j, sys.read[i])
    && !Live(Exec(config, sys.traces[i][..j]))
  }

  lemma RejectionIsTrue(config: Config, relays: nat, actions: seq<Action>, i: nat) returns (j: nat)
    requires Inboxed(config)
    requires var fed := Fed(config, Run(config, relays, actions), Consume(i));
             fed != [] && fed[0].notification.AuthenticationRejected?
    ensures NextIsRefused(config, Run(config, relays, actions), i, j)
  {
    var sys := Run(config, relays, actions);
    var notes, k := Exec(config, sys.traces[i]).notes, sys.read[i];
    j := SomeStepEmitted(config, sys.traces[i], k);
    PrefixIsExact(config, sys.traces[i], j, k);
    assert notes[..k + 1][|notes[..k + 1]| - 1] == notes[k];
  }

  /**
  What start-up can stop for, on a feed that a run yields: a rejection is reported only of a relay
  whose session that step left unauthenticated; and the unexpected-identity error does not occur.
  */
  lemma ObjectionsAreSound(r: Runtime, config: Config, actions: seq<Action>, k: nat) returns (n: nat, j: nat)
    requires Inboxed(config) && config.signer == Some(r.publicKey) && k < |Feed(config, r.relays, actions)|
    ensures n < |actions| && Feed(config, r.relays, actions[..n]) == Feed(config, r.relays, actions)[..k]
    ensures var verdict := r.Objection(Feed(config, r.relays, actions)[k]);
            && !verdict.UnexpectedIdentity?
            && (verdict.Rejected? ==> NextIsRefused(config, Run(config, r.relays, actions[..n]), verdict.relay, j))
  {
    n := FeedAt(config, r.relays, actions, k);
    var i := actions[n].relay;
    assert actions[n] == Consume(i);
    OnlyOwnIdentity(config, r.relays, actions[..n], i, Run(config, r.relays, actions[..n]).read[i]);
    j := 0;
    if r.Objection(Feed(config, r.relays, actions)[k]).Rejected? { j := RejectionIsTrue(config, r.relays, actions[..n], i); }
  }

  /** And it stops for every rejection: exactly when the relay refused the authentication that was pending. */
  lemma ObjectsIff(r: Runtime, config: Config, actions: seq<Action>, i: nat, j: nat, message: string)
    requires Inboxed(config)
    requires var sys := Run(config, r.relays, actions);
             Fed(config, sys, Consume(i)) != [] && EmittedBy(config, sys.traces[i], j, sys.read[i])
    ensures var sys := Run(config, r.relays, actions);
            var s, m := Exec(config, sys.traces[i][..j - 1]), sys.traces[i][j - 1];
            r.Objection(Fed(config, sys, Consume(i))[0]) == Rejected(i, message)
            <==> && m.Receive? && s.authentication.Some? && m.frame == OkFrame(s.authentication.value.event, false, message)
                 && m.env.notifyOk
  {
    RejectedIff(r, config, actions, i, j, message);
  }

  /** And what it is ready for: a relay in the set was left authenticated by the step last heard of. */
  lemma ReadinessIsSound(config: Config, relays: nat, actions: seq<Action>, used: nat, i: nat) returns (n: nat, j: nat)
    requires Inboxed(config) && i < relays && used <= |Feed(config, relays, actions)|
    requires i in ObserveAll({}, Feed(config, relays, actions)[..used])
    ensures n <= |actions| && Feed(config, relays, actions[..n]) == Feed(config, relays, actions)[..used]
    ensures var sys := Run(config, relays, actions[..n]);
            && sys.read[i] > 0 && EmittedBy(config, sys.traces[i], j, sys.read[i] - 1)
            && Live(Exec(config, sys.traces[i][..j]))
  {
    n := FeedUpTo(config, relays, actions, used);
    FeedIsView(config, relays, actions[..n]);
    j := DelayedViewExact(config, relays, actions[..n], i);
  }

  lemma OneMoreTaken(feed: seq<PoolNotification>, k: nat)
    requires k < |feed|
    ensures feed[..k + 1] == feed[..k] + [feed[k]]
  {
  }

  lemma FeedUpTo(config: Config, relays: nat, actions: seq<Action>, used: nat) returns (n: nat)
    requires used <= |Feed(config, relays, actions)|
    ensures n <= |actions| && Feed(config, relays, actions[..n]) == Feed(config, relays, actions)[..used]
  {
    n := 0;
    if used > 0 {
      var last := FeedAt(config, relays, actions, used - 1);
      n := last + 1;
      FeedNext(config, relays, actions, last);
      OneMoreTaken(Feed(config, relays, actions), used - 1);
    }
  }

  class Runtime {
    const relays: nat
    const publicKey: string
    const subscription: string
    var known: set<nat>

    constructor (relays: nat, publicKey: string, subscription: string)
      ensures this.relays == relays && this.publicKey == publicKey && this.subscription == subscription
      ensures known == {}
    {
      this.relays, this.publicKey, this.subscription, known := relays, publicKey, subscription, {};
    }

    /** What `next_activity` returns on a notification, when its set is `seen`. */
    function Judge(seen: set<nat>, p: PoolNotification): Verdict {
      match p.notification
      case Authenticated(key) =>
        if key != publicKey then UnexpectedIdentity(p.relay)
        else if |seen| != relays && |seen + {p.relay}| == relays then AuthenticationRestored
        else Continue
      case AuthenticationRejected(_, message) => Rejected(p.relay, message)
      case Event(id, event) =>
        if id != subscription then Continue
        else if p.relay !in seen then UnauthenticatedEvent(p.relay)
        else Inbox(p.relay, event)
      case Closed(id, message) => if id == subscription then SubscriptionClosed(p.relay, message) else Continue
      case _ => Continue
    }

    /** None of the first `n` notifications calls for a return. */
    ghost predicate Quiet(start: set<nat>, feed: seq<PoolNotification>, n: nat)
      requires n <= |feed|
    {
      forall k | 0 <= k < n :: JudgeAt(start, feed, k) == Continue
    }

    /** The verdict on notification `k`, after all before it. */
    function JudgeAt(start: set<nat>, feed: seq<PoolNotification>, k: nat): Verdict
      requires k < |feed|
    {
      Judge(ObserveAll(start, feed[..k]), feed[k])
    }

    /**
    Consume notifications until one calls for a return. The set is the fold of
    everything consumed, and the verdict is that of the first notification that
    has one.
    */
    method NextActivity(feed: seq<PoolNotification>) returns (verdict: Verdict, used: nat)
      modifies this
      ensures used <= |feed| && verdict != Continue
      ensures if verdict == FeedEnded then
                used == |feed| && Quiet(old(known), feed, used) && known == ObserveAll(old(known), feed)
              else
                && used > 0 && Quiet(old(known), feed, used - 1)
                && verdict == JudgeAt(old(known), feed, used - 1)
                && (verdict.UnexpectedIdentity? || known == ObserveAll(old(known), feed[..used]))
    {
      ghost var start := known;
      used := 0;
      while used < |feed|
        invariant used <= |feed|
        invariant known == ObserveAll(start, feed[..used])
        invariant Quiet(start, feed, used)
      {
        var p := feed[used];
        verdict := Judge(known, p);
        assert verdict == JudgeAt(start, feed, used);
        used := used + 1;
        if verdict.UnexpectedIdentity? { return; }
        Heard(start, feed, used - 1);
        known := Observe(known, p.relay, p.notification);
        if verdict != Continue { return; }
      }
      assert feed[..used] == feed;
      verdict := FeedEnded;
    }

    /** What `wait_for_authentication` stops for. */
    function Objection(p: PoolNotification): Verdict {
      match p.notification
      case Authenticated(key) => if key != publicKey then UnexpectedIdentity(p.relay) else Continue
      case AuthenticationRejected(_, message) => Rejected(p.relay, message)
      case _ => Continue
    }

    ghost predicate Unopposed(feed: seq<PoolNotification>, n: nat)
      requires n <= |feed|
    {
      forall k | 0 <= k < n :: Objection(feed[k]) == Continue
    }

    /** After the first `k` notifications some relay is still missing. */
    ghost predicate NotAll(feed: seq<PoolNotification>, k: nat)
      requires k <= |feed|
    {
      |ObserveAll({}, feed[..k])| < relays
    }

    lemma Heard(start: set<nat>, feed: seq<PoolNotification>, k: nat)
      requires k < |feed|
      ensures ObserveAll(start, feed[..k + 1]) == Observe(ObserveAll(start, feed[..k]), feed[k].relay, feed[k].notification)
    {
      OneMoreTaken(feed, k);
      ObserveMore(start, feed[..k], feed[k]);
    }

    lemma AllKnown(feed: seq<PoolNotification>, n: nat)
      requires n <= |feed| && (forall p <- feed :: p.relay < relays) && |ObserveAll({}, feed[..n])| >= relays
      ensures forall i: nat | i < relays :: i in ObserveAll({}, feed[..n])
    {
      ObserveAllMembers({}, feed[..n], relays);
      FullSet(ObserveAll({}, feed[..n]), relays);
    }

    /** One notification of start-up. */
    method Hear(p: PoolNotification) returns (verdict: Verdict)
      modifies this
      ensures verdict == Objection(p)
      ensures known == if verdict.UnexpectedIdentity? then old(known) else Observe(old(known), p.relay, p.notification)
    {
      if p.notification.Authenticated? && p.notification.publicKey != publicKey {
        return UnexpectedIdentity(p.relay);
      }
      known := Observe(known, p.relay, p.notification);
      if p.notification.AuthenticationRejected? {
        return Rejected(p.relay, p.notification.message);
      }
      return Continue;
    }

    /** Nothing to stop for among the first `n` notifications, and no point at which all relays were there. */
    ghost predicate Waited(feed: seq<PoolNotification>, n: nat)
      requires n <= |feed|
    {
      Unopposed(feed, n) && forall k | 0 <= k < n :: NotAll(feed, k)
    }

    /**
    The start-up loop: it returns Ready only when every relay is authenticated in
    the view of the notifications consumed, and at the first such point; an error is
    that of the first notification that has one.
    */
    method WaitForAuthentication(feed: seq<PoolNotification>) returns (verdict: Verdict, used: nat)
      requires known == {} && relays > 0
      requires forall p <- feed :: p.relay < relays
      modifies this
      ensures used <= |feed|
      ensures verdict.UnexpectedIdentity? || known == ObserveAll({}, feed[..used])
      ensures verdict.Ready? || verdict.FeedEnded? || verdict.Rejected? || verdict.UnexpectedIdentity?
      ensures verdict.Ready? ==> Waited(feed, used) && forall i: nat | i < relays :: i in known
      ensures verdict.FeedEnded? ==> Waited(feed, used) && used == |feed| && |known| < relays
      ensures verdict.Rejected? || verdict.UnexpectedIdentity? ==>
                used > 0 && Waited(feed, used - 1) && NotAll(feed, used - 1) && verdict == Objection(feed[used - 1])
    {
      used := 0;
      while |known| < relays
        invariant used <= |feed| && known == ObserveAll({}, feed[..used]) && Waited(feed, used)
        decreases |feed| - used
      {
        if used == |feed| { return FeedEnded, used; }
        assert NotAll(feed, used);
        verdict := Hear(feed[used]);
        Heard({}, feed, used);
        used := used + 1;
        if verdict != Continue { return; }
      }
      AllKnown(feed, used);
      verdict := Ready;
    }
  }
}
