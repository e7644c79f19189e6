/**
Two boundaries of the relay actor over whole runs: when the relay still holds a request
that the actor's map has not, and which actors send ordinary frames after a challenge
that nobody answered.
*/
module RelayRequests {
  import opened Common
  import opened RelayActor
  import opened RelayWire

  lemma ExecMore(config: Config, moves: seq<Move>, m: Move)
    ensures Exec(config, moves + [m]) == Step(config, Exec(config, moves), m)
  {
    assert (moves + [m])[..|moves|] == moves;
  }

  // A request left behind.

  /** The command is taken on a connection and is about `id`. */
  predicate Subscribes(s: State, m: Move, id: string) {
    Enabled(s, m) && s.phase.Online? && m.Dequeue? && m.command.Subscribe? && m.command.id == id
  }

  predicate Closes(s: State, m: Move, id: string) {
    Enabled(s, m) && s.phase.Online? && m.Dequeue? && m.command.Close? && m.command.id == id
  }

  lemma {:induction false} RequestsSkip(log: seq<Wire>, subscriptions: map<string, Filters>, order: seq<string>, id: string)
    requires forall x <- order :: x in subscriptions
    requires id !in order
    ensures LastRequest(log + Requests(subscriptions, order), id) == LastRequest(log, id)
    decreases |order|
  {
    var longer := log + Requests(subscriptions, order);
    if order == [] {
      assert longer == log;
    } else {
      var front, last := order[..|order| - 1], order[|order| - 1];
      assert longer[..|longer| - 1] == log + Requests(subscriptions, front);
      assert longer[|longer| - 1] == SentReq(last, subscriptions[last]);
      assert last in order;
      RequestsSkip(log, subscriptions, front, id);
    }
  }

  /** The actor knows nothing of `id`, and the relay was last asked the same about it. */
  predicate SameRequest(s: State, s': State, id: string) {
    id !in s'.subscriptions && LastRequest(s'.wire, id) == LastRequest(s.wire, id)
  }

  lemma CommandSame(s: State, command: Command, env: Env, id: string)
    requires s.phase.Online? && id !in s.subscriptions && OnCommand(s, command, env).phase.Online?
    requires (command.Subscribe? || command.Close?) ==> command.id != id
    ensures SameRequest(s, OnCommand(s, command, env), id)
  {
    match command
    case Publish(event, t) => LastRequestAppend(s.wire, SentEvent(event, t), id);
    case Subscribe(x, filters, t) => LastRequestAppend(s.wire, SentReq(x, filters), id);
    case Close(x, t) => LastRequestAppend(s.wire, SentClose(x), id);
    case Shutdown =>
  }

  lemma OkSame(s: State, event: string, accepted: bool, message: string, env: Env, id: string)
    requires s.phase.Online? && id !in s.subscriptions && Enumerates(env.order, s.subscriptions.Keys)
    requires OnOk(s, event, accepted, message, env).phase.Online?
    ensures SameRequest(s, OnOk(s, event, accepted, message, env), id)
  {
    LastRequestAppend(s.wire, GotOk(event, accepted), id);
    var order := Attempted(env.order, env.sends);
    RequestsSkip(s.wire + [GotOk(event, accepted)], s.subscriptions, order, id);
  }

  lemma ChallengeSame(config: Config, s: State, challenge: string, env: Env, id: string)
    requires s.phase.Online? && id !in s.subscriptions && OnChallenge(config, s, challenge, env).phase.Online?
    ensures SameRequest(s, OnChallenge(config, s, challenge, env), id)
  {
    LastRequestAppend(s.wire, GotChallenge, id);
    if env.signed.Some? { LastRequestAppend(s.wire + [GotChallenge], SentAuth(env.signed.value), id); }
  }

  lemma FrameSame(config: Config, s: State, frame: Frame, env: Env, id: string)
    requires s.phase.Online? && id !in s.subscriptions && Enumerates(env.order, s.subscriptions.Keys)
    requires OnFrame(config, s, frame, env).phase.Online?
    ensures SameRequest(s, OnFrame(config, s, frame, env), id)
  {
    var s1 := s.(progress := true);
    if frame.OkFrame? {
      OkSame(s1, frame.event, frame.accepted, frame.message, env, id);
    } else if frame.AuthFrame? {
      ChallengeSame(config, s1, frame.challenge, env, id);
    }
  }

  lemma ConnectAsksOnlyMapped(config: Config, s: State, env: Env, id: string)
    requires Enumerates(env.order, s.subscriptions.Keys) && id !in s.subscriptions
    requires Connect(config, s, env).phase.Online?
    ensures LastRequest(Connect(config, s, env).wire, id) == None && id !in Connect(config, s, env).subscriptions
  {
    var order := Attempted(env.order, env.sends);
    assert id !in order;
    RequestsSkip([], s.subscriptions, order, id);
    assert [] + Requests(s.subscriptions, order) == Requests(s.subscriptions, order);
  }

  lemma SubscribeStep(config: Config, s: State, m: Move, id: string)
    requires Subscribes(s, m, id) && Step(config, s, m).phase.Online?
    ensures id in Step(config, s, m).subscriptions
  {
  }

  lemma CloseStep(config: Config, s: State, m: Move, id: string)
    requires Closes(s, m, id) && Step(config, s, m).phase.Online?
    ensures var s' := Step(config, s, m);
            id !in s'.subscriptions && LastRequest(s'.wire, id) == if s.open then None else LastRequest(s.wire, id)
  {
    LastRequestAppend(s.wire, SentClose(id), id);
  }

  lemma CommandKeepsId(s: State, command: Command, env: Env, id: string)
    requires s.phase.Online? && id in s.subscriptions && (command.Close? ==> command.id != id)
    ensures id in OnCommand(s, command, env).subscriptions
  {
  }

  lemma FrameKeepsMap(config: Config, s: State, frame: Frame, env: Env)
    requires Enumerates(env.order, s.subscriptions.Keys)
    ensures OnFrame(config, s, frame, env).subscriptions == s.subscriptions
  {
    if frame.OkFrame? {
      OkKeepsMap(s.(progress := true), frame.event, frame.accepted, frame.message, env);
    }
  }

  lemma OkKeepsMap(s: State, event: string, accepted: bool, message: string, env: Env)
    requires Enumerates(env.order, s.subscriptions.Keys)
    ensures OnOk(s, event, accepted, message, env).subscriptions == s.subscriptions
  {
  }

  /** Every other move on a connection leaves what is unmapped unmapped, and asks nothing about it. */
  lemma OtherStep(config: Config, s: State, m: Move, id: string)
    requires s.phase.Online? && Step(config, s, m).phase.Online?
    requires !Subscribes(s, m, id) && !Closes(s, m, id)
    ensures id in s.subscriptions ==> id in Step(config, s, m).subscriptions
    ensures id !in s.subscriptions ==> SameRequest(s, Step(config, s, m), id)
  {
    if Enabled(s, m) {
      if m.Dequeue? {
        if id in s.subscriptions { CommandKeepsId(s, m.command, m.env, id); } else { CommandSame(s, m.command, m.env, id); }
      } else if m.Receive? {
        FrameKeepsMap(config, s, m.frame, m.env);
        if id !in s.subscriptions { FrameSame(config, s, m.frame, m.env, id); }
      }
    }
  }

  /** A connection starts with requests for mapped ids only. */
  lemma NewConnection(config: Config, s: State, m: Move, id: string)
    requires !s.phase.Online? && Step(config, s, m).phase.Online?
    ensures var s' := Step(config, s, m); id !in s'.subscriptions ==> LastRequest(s'.wire, id) == None
  {
    if id !in s.subscriptions { ConnectAsksOnlyMapped(config, s, m.env, id); }
  }

  /** At move `j` a close of `id` is taken while unauthenticated, with a request for it open. */
  predicate LeavesAt(config: Config, moves: seq<Move>, j: nat, id: string)
    requires j < |moves|
  {
    var s := Exec(config, moves[..j]);
    Closes(s, moves[j], id) && !s.open && LastRequest(s.wire, id).Some?
  }

  /** At move `k` the connection stands, `id` is not subscribed again and no CLOSE is sent for it. */
  predicate QuietAt(config: Config, moves: seq<Move>, k: nat, id: string)
    requires k < |moves|
  {
    var s := Exec(config, moves[..k]);
    s.phase.Online? && !Subscribes(s, moves[k], id) && !(Closes(s, moves[k], id) && s.open)
  }

  predicate LeftSince(config: Config, moves: seq<Move>, j: nat, id: string)
    requires j < |moves|
  {
    LeavesAt(config, moves, j, id) && forall k | j < k < |moves| :: QuietAt(config, moves, k, id)
  }

  predicate LeftBehind(config: Config, moves: seq<Move>, id: string) {
    exists j | 0 <= j < |moves| :: LeftSince(config, moves, j, id)
  }

  lemma PrefixMoves(moves: seq<Move>, k: nat)
    requires k < |moves|
    ensures moves[..|moves| - 1][..k] == moves[..k]
  {
  }

  /** Being left behind since `j`, one move earlier and one move later. */
  lemma LeftSincePrefix(config: Config, moves: seq<Move>, j: nat, id: string)
    requires j < |moves| - 1
    ensures var front := moves[..|moves| - 1];
            LeftSince(config, moves, j, id) <==> LeftSince(config, front, j, id) && QuietAt(config, moves, |front|, id)
  {
    var front := moves[..|moves| - 1];
    PrefixMoves(moves, j);
    forall k | j < k < |front| ensures QuietAt(config, front, k, id) <==> QuietAt(config, moves, k, id) {
      PrefixMoves(moves, k);
    }
  }

  lemma {:induction false} LeftBehindStays(config: Config, moves: seq<Move>, j: nat, id: string)
    requires Exec(config, moves).phase.Online? && j < |moves| && LeftSince(config, moves, j, id)
    ensures id !in Exec(config, moves).subscriptions && LastRequest(Exec(config, moves).wire, id).Some?
    decreases |moves|
  {
    var s, last := Exec(config, moves[..|moves| - 1]), moves[|moves| - 1];
    if j < |moves| - 1 {
      LeftSincePrefix(config, moves, j, id);
      LeftBehindStays(config, moves[..|moves| - 1], j, id);
    }
    if Closes(s, last, id) { CloseStep(config, s, last, id); } else { OtherStep(config, s, last, id); }
  }

  lemma {:induction false} HeldWasLeftBehind(config: Config, moves: seq<Move>, id: string) returns (j: nat)
    requires Exec(config, moves).phase.Online? && id !in Exec(config, moves).subscriptions
    requires LastRequest(Exec(config, moves).wire, id).Some?
    ensures j < |moves| && LeftSince(config, moves, j, id)
    decreases |moves|
  {
    var s, last := Exec(config, moves[..|moves| - 1]), moves[|moves| - 1];
    if !s.phase.Online? { NewConnection(config, s, last, id); }
    if Subscribes(s, last, id) { SubscribeStep(config, s, last, id); }
    if Closes(s, last, id) {
      CloseStep(config, s, last, id);
      j := |moves| - 1;
    } else {
      OtherStep(config, s, last, id);
      j := HeldWasLeftBehind(config, moves[..|moves| - 1], id);
      LeftSincePrefix(config, moves, j, id);
    }
  }

  /**
  On a connection the relay holds a request for an id that the actor's map has not, if and only
  if on that connection a close of it was taken while unauthenticated with a request open, and
  since then it was not subscribed again and no CLOSE was sent for it.
  */
  lemma LeftBehindIff(config: Config, moves: seq<Move>, id: string)
    requires Exec(config, moves).phase.Online? && id !in Exec(config, moves).subscriptions
    ensures LastRequest(Exec(config, moves).wire, id).Some? <==> LeftBehind(config, moves, id)
  {
    if LastRequest(Exec(config, moves).wire, id).Some? {
      var j := HeldWasLeftBehind(config, moves, id);
    }
    if LeftBehind(config, moves, id) {
      var j :| 0 <= j < |moves| && LeftSince(config, moves, j, id);
      LeftBehindStays(config, moves, j, id);
    }
  }

  const QUIET := Env(true, true, true, [], 0, Some("auth"))

  /** Connect and authenticate. */
  lemma AuthenticatedRun(key: string) returns (moves: seq<Move>)
    ensures var s := Exec(Config(Some(key), RequireWhenConfigured), moves);
            s.phase.Online? && s.open && s.subscriptions == map[] && s.taken == {}
  {
    var config := Config(Some(key), RequireWhenConfigured);
    var m1 := [ConnectOk(QUIET)];
    var m2 := m1 + [Receive(AuthFrame("c"), QUIET)];
    moves := m2 + [Receive(OkFrame("auth", true, ""), QUIET)];
    assert m1 == [] + [ConnectOk(QUIET)];
    ExecMore(config, [], ConnectOk(QUIET));
    ExecMore(config, m1, Receive(AuthFrame("c"), QUIET));
    ExecMore(config, m2, Receive(OkFrame("auth", true, ""), QUIET));
  }

  /** Subscribe. */
  lemma Subscribed(config: Config, s: State)
    requires s.phase.Online? && s.open && s.subscriptions == map[] && s.taken == {}
    ensures var s1 := Step(config, s, Dequeue(Subscribe("a", ["f"], 0), QUIET));
            && s1.phase.Online? && s1.subscriptions == map["a" := ["f"]] && s1.taken == {0}
            && LastRequest(s1.wire, "a") == Some(["f"])
  {
    LastRequestAppend(s.wire, SentReq("a", ["f"]), "a");
  }

  /** Be challenged again. */
  lemma Rechallenged(config: Config, s: State)
    requires config.signer.Some? && s.phase.Online? && s.subscriptions == map["a" := ["f"]] && s.taken == {0}
    requires LastRequest(s.wire, "a") == Some(["f"])
    ensures var s2 := Step(config, s, Receive(AuthFrame("d"), QUIET.(order := ["a"])));
            s2.phase.Online? && !s2.open && s2.taken == {0} && LastRequest(s2.wire, "a") == Some(["f"])
  {
    LastRequestAppend(s.wire, GotChallenge, "a");
    LastRequestAppend(s.wire + [GotChallenge], SentAuth("auth"), "a");
  }

  /** So a request is left behind in some run. */
  lemma RequestIsLeftBehind(key: string) returns (moves: seq<Move>)
    ensures var s := Exec(Config(Some(key), RequireWhenConfigured), moves);
            s.phase.Online? && "a" !in s.subscriptions && LastRequest(s.wire, "a") == Some(["f"])
  {
    var config := Config(Some(key), RequireWhenConfigured);
    var m := AuthenticatedRun(key);
    Subscribed(config, Exec(config, m));
    var m1 := m + [Dequeue(Subscribe("a", ["f"], 0), QUIET)];
    var m2 := m1 + [Receive(AuthFrame("d"), QUIET.(order := ["a"]))];
    moves := m2 + [Dequeue(Close("a", 1), QUIET)];
    ExecMore(config, m, Dequeue(Subscribe("a", ["f"], 0), QUIET));
    Rechallenged(config, Exec(config, m1));
    ExecMore(config, m1, Receive(AuthFrame("d"), QUIET.(order := ["a"])));
    ExecMore(config, m2, Dequeue(Close("a", 1), QUIET));
    CloseStep(config, Exec(config, m2), Dequeue(Close("a", 1), QUIET), "a");
  }

  // Challenges nobody answers.

  /** Between the challenge at `c` and `p` an AUTH was sent and accepted. */
  predicate Answered(log: seq<Wire>, c: nat, p: nat) {
    exists a, k | c < a < k < p && k < |log| :: log[a].SentAuth? && log[k] == GotOk(log[a].event, true)
  }

  /** An ordinary frame at `p` after a challenge at `c`. */
  predicate Challenged(log: seq<Wire>, c: nat, p: nat) {
    c < p < |log| && log[c].GotChallenge? && Ordinary(log[p])
  }

  predicate OnSomeWire(s: State, log: seq<Wire>) { log == s.wire || log in s.past }

  /** Every ordinary frame that follows a challenge follows an accepted answer to it. */
  ghost predicate AlwaysAnswers(config: Config) {
    forall moves, log: seq<Wire>, c: nat, p: nat | OnSomeWire(Exec(config, moves), log) && Challenged(log, c, p) ::
      Answered(log, c, p)
  }

  lemma ClearedIsAnswered(config: Config, log: seq<Wire>, c: nat, p: nat)
    requires config.signer.Some? && Challenged(log, c, p) && Cleared(config, log[..p])
    ensures Answered(log, c, p)
  {
    assert log[..p][c] in log[..p];
    var a: nat, k: nat :| AcceptedAt(log[..p], a, k);
    assert log[a] == log[..p][a] && log[k] == log[..p][k];
    assert c < a;
  }

  lemma SignerAnswers(config: Config, moves: seq<Move>, log: seq<Wire>, c: nat, p: nat)
    requires config.signer.Some? && OnSomeWire(Exec(config, moves), log) && Challenged(log, c, p)
    ensures Answered(log, c, p)
  {
    WireSafety(config, moves, log, p);
    ClearedIsAnswered(config, log, c, p);
  }

  /** Without a signer the actor goes on as before. */
  lemma SignerlessGoesOn(policy: Policy) returns (moves: seq<Move>)
    ensures Exec(Config(None, policy), moves).wire == [GotChallenge, SentReq("a", ["f"])]
  {
    var config := Config(None, policy);
    var m1 := [ConnectOk(QUIET)];
    var m2 := m1 + [Receive(AuthFrame("c"), QUIET)];
    moves := m2 + [Dequeue(Subscribe("a", ["f"], 0), QUIET)];
    assert m1 == [] + [ConnectOk(QUIET)];
    ExecMore(config, [], ConnectOk(QUIET));
    ExecMore(config, m1, Receive(AuthFrame("c"), QUIET));
    ExecMore(config, m2, Dequeue(Subscribe("a", ["f"], 0), QUIET));
  }

  /** Exactly the actors with a signer never send an ordinary frame after an unanswered challenge. */
  lemma AlwaysAnswersIff(config: Config)
    ensures AlwaysAnswers(config) <==> config.signer.Some?
  {
    if config.signer.Some? {
      forall moves, log: seq<Wire>, c: nat, p: nat | OnSomeWire(Exec(config, moves), log) && Challenged(log, c, p)
        ensures Answered(log, c, p)
      {
        SignerAnswers(config, moves, log, c, p);
      }
    } else {
      var moves := SignerlessGoesOn(config.policy);
      var log := Exec(config, moves).wire;
      assert config == Config(None, config.policy);
      assert OnSomeWire(Exec(config, moves), log) && Challenged(log, 0, 1);
      assert !Answered(log, 0, 1);
    }
  }
}
