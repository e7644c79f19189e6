/**
NIP-42 wire safety of the relay actor over whole runs, and what the relay was
last asked for: on every connection, in every run.
*/
module RelayWire {
  import opened Common
  import opened RelayActor

  /** A frame NIP-42 lets a relay refuse to an unauthenticated client. */
  predicate Ordinary(w: Wire) { w.SentEvent? || w.SentReq? || w.SentClose? }

  /**
  `log[a]` is the latest AUTH event, it was sent after the latest challenge, and
  the first OK naming it, at `k`, accepts it.
  */
  predicate AcceptedAt(log: seq<Wire>, a: nat, k: nat) {
    && a < k < |log|
    && log[a].SentAuth?
    && log[k] == GotOk(log[a].event, true)
    && (forall j | a < j < |log| :: !log[j].SentAuth? && !log[j].GotChallenge?)
    && (forall j | a < j < k :: !(log[j].GotOk? && log[j].event == log[a].event))
  }

  /** Whether this connection's history permits an ordinary frame next. */
  ghost predicate Cleared(config: Config, log: seq<Wire>) {
    || config.signer.None?
    || (config.policy.AuthenticateWhenChallenged? && forall w <- log :: !w.GotChallenge?)
    || exists a, k :: AcceptedAt(log, a, k)
  }

  ghost predicate Safe(config: Config, log: seq<Wire>) {
    forall p | 0 <= p < |log| && Ordinary(log[p]) :: Cleared(config, log[..p])
  }

  /** The AUTH event `event` is the latest one and no OK has named it yet. */
  predicate Unanswered(log: seq<Wire>, a: nat, event: string) {
    && a < |log|
    && log[a] == SentAuth(event)
    && forall j | a < j < |log| ::
         !log[j].SentAuth? && !log[j].GotChallenge? && !(log[j].GotOk? && log[j].event == event)
  }

  /** The filters of the last REQ for `id` that no CLOSE has followed. */
  function LastRequest(log: seq<Wire>, id: string): Option<Filters> {
    if log == [] then None else
    var w := log[|log| - 1];
    if w.SentReq? && w.id == id then Some(w.filters)
    else if w == SentClose(id) then None
    else LastRequest(log[..|log| - 1], id)
  }

  /** What every move keeps. */
  ghost predicate WireInv(config: Config, s: State) {
    && (forall log <- s.past :: Safe(config, log))
    && Safe(config, s.wire)
    && (Live(s) ==> Cleared(config, s.wire))
    && (Live(s) ==> forall id <- s.subscriptions :: LastRequest(s.wire, id) == Some(s.subscriptions[id]))
    && (s.phase.Online? && s.authentication.Some? ==>
          && config.signer == Some(s.authentication.value.publicKey)
          && exists a :: Unanswered(s.wire, a, s.authentication.value.event))
    && (s.phase.Connecting? || s.phase.Waiting? ==> s.authentication.None?)
  }

  lemma ClearedAppend(config: Config, log: seq<Wire>, w: Wire)
    requires Cleared(config, log) && !w.SentAuth? && !w.GotChallenge?
    ensures Cleared(config, log + [w])
  {
    if exists a, k :: AcceptedAt(log, a, k) {
      var a, k :| AcceptedAt(log, a, k);
      assert AcceptedAt(log + [w], a, k);
    }
  }

  lemma SafeAppend(config: Config, log: seq<Wire>, w: Wire)
    requires Safe(config, log) && (Ordinary(w) ==> Cleared(config, log))
    ensures Safe(config, log + [w])
  {
    var longer := log + [w];
    forall p | 0 <= p < |longer| && Ordinary(longer[p]) ensures Cleared(config, longer[..p]) {
      assert longer[..p] == log[..p];
      if p == |log| { assert log[..p] == log; } else { assert longer[p] == log[p]; }
    }
  }

  lemma {:induction false} RequestsKeepSafety(config: Config, log: seq<Wire>, requests: seq<Wire>)
    requires Safe(config, log) && Cleared(config, log) && forall w <- requests :: w.SentReq?
    ensures Safe(config, log + requests) && Cleared(config, log + requests)
    decreases |requests|
  {
    if requests == [] {
      assert log + requests == log;
    } else {
      assert requests[0] in requests;
      SafeAppend(config, log, requests[0]);
      ClearedAppend(config, log, requests[0]);
      assert log + requests == log + [requests[0]] + requests[1..];
      RequestsKeepSafety(config, log + [requests[0]], requests[1..]);
    }
  }

  /** A complete replay leaves every subscription requested with its own filters. */
  lemma {:induction false} ReplayRequestsAll(log: seq<Wire>, subscriptions: map<string, Filters>, order: seq<string>, id: string)
    requires forall x <- order :: x in subscriptions
    requires id in order
    ensures LastRequest(log + Requests(subscriptions, order), id) == Some(subscriptions[id])
    decreases |order|
  {
    var front, last := order[..|order| - 1], order[|order| - 1];
    var longer := log + Requests(subscriptions, order);
    assert longer[..|longer| - 1] == log + Requests(subscriptions, front);
    assert longer[|longer| - 1] == SentReq(last, subscriptions[last]);
    if id != last {
      assert order == front + [last];
      ReplayRequestsAll(log, subscriptions, front, id);
    }
  }

  lemma LastRequestAppend(log: seq<Wire>, w: Wire, id: string)
    ensures LastRequest(log + [w], id) ==
            if w.SentReq? && w.id == id then Some(w.filters)
            else if w == SentClose(id) then None
            else LastRequest(log, id)
  {
    assert (log + [w])[..|log|] == log;
  }

  lemma DisconnectKeeps(config: Config, s: State, notifyOk: bool)
    requires (forall log <- s.past :: Safe(config, log)) && Safe(config, s.wire)
    ensures WireInv(config, Disconnect(s, notifyOk))
  {
  }

  lemma ConnectKeeps(config: Config, s: State, env: Env)
    requires WireInv(config, s) && s.phase.Connecting? && Enumerates(env.order, s.subscriptions.Keys)
    ensures WireInv(config, Connect(config, s, env))
  {
    if env.notifyOk && OpensAuthenticated(config) {
      assert Cleared(config, []);
      var requests := Requests(s.subscriptions, Attempted(env.order, env.sends));
      RequestsKeepSafety(config, [], requests);
      assert [] + requests == requests;
      if env.sends >= |env.order| {
        forall id <- s.subscriptions ensures LastRequest(requests, id) == Some(s.subscriptions[id]) {
          ReplayRequestsAll([], s.subscriptions, env.order, id);
        }
      }
    }
  }

  /** Any one entry that is neither AUTH nor a challenge leaves the invariant's wire facts in place. */
  lemma LogKeeps(config: Config, s: State, w: Wire)
    requires WireInv(config, s) && s.phase.Online?
    requires Ordinary(w) ==> s.open
    requires !w.SentAuth? && !w.GotChallenge?
    ensures Safe(config, s.wire + [w])
    ensures s.open ==> Cleared(config, s.wire + [w])
    ensures s.authentication.Some? && !(w.GotOk? && w.event == s.authentication.value.event) ==>
              exists a :: Unanswered(s.wire + [w], a, s.authentication.value.event)
  {
    SafeAppend(config, s.wire, w);
    if s.open { ClearedAppend(config, s.wire, w); }
    if s.authentication.Some? && !(w.GotOk? && w.event == s.authentication.value.event) {
      var a :| Unanswered(s.wire, a, s.authentication.value.event);
      assert Unanswered(s.wire + [w], a, s.authentication.value.event);
    }
  }

  /** Where an ordinary frame went out but the send failed. */
  lemma FailedSendKeeps(config: Config, s: State, w: Wire, s': State, notifyOk: bool)
    requires WireInv(config, s) && Live(s) && Ordinary(w)
    requires s'.past == s.past && s'.wire == s.wire + [w]
    ensures WireInv(config, Disconnect(s', notifyOk))
  {
    SafeAppend(config, s.wire, w);
    DisconnectKeeps(config, s', notifyOk);
  }

  lemma PublishKeeps(config: Config, s: State, event: string, t: Ticket, env: Env)
    requires WireInv(config, s) && s.phase.Online?
    ensures WireInv(config, OnPublish(s, event, t, env))
  {
    var w := SentEvent(event, t);
    if s.open && !(event in s.pending && s.pending[event] !in s.gone) {
      if env.sendOk {
        LogKeeps(config, s, w);
        forall id ensures LastRequest(s.wire + [w], id) == LastRequest(s.wire, id) {
          LastRequestAppend(s.wire, w, id);
        }
      } else {
        var s0 := Take(s, t);
        var s1 := if event in s0.pending
                  then s0.(dropped := s0.dropped + {s0.pending[event]}, pending := s0.pending - {event})
                  else s0;
        FailedSendKeeps(config, s, w, Reply(s1.(wire := s1.wire + [w]), t, Failed(SendFailed)), env.disconnectNotifyOk);
      }
    }
  }

  lemma SubscribeKeeps(config: Config, s: State, id: string, filters: Filters, t: Ticket, env: Env)
    requires WireInv(config, s) && s.phase.Online?
    ensures WireInv(config, OnSubscribe(s, id, filters, t, env))
  {
    var w := SentReq(id, filters);
    if s.open {
      if env.sendOk {
        LogKeeps(config, s, w);
        forall x ensures LastRequest(s.wire + [w], x) == if x == id then Some(filters) else LastRequest(s.wire, x) {
          LastRequestAppend(s.wire, w, x);
        }
      } else {
        FailedSendKeeps(config, s, w, Reply(Take(s, t).(wire := s.wire + [w]), t, Failed(SendFailed)), env.disconnectNotifyOk);
      }
    }
  }

  lemma CloseKeeps(config: Config, s: State, id: string, t: Ticket, env: Env)
    requires WireInv(config, s) && s.phase.Online?
    ensures WireInv(config, OnClose(s, id, t, env))
  {
    var w := SentClose(id);
    if s.open {
      if env.sendOk {
        LogKeeps(config, s, w);
        forall x | x != id ensures LastRequest(s.wire + [w], x) == LastRequest(s.wire, x) {
          LastRequestAppend(s.wire, w, x);
        }
      } else {
        var s0 := Take(s, t).(subscriptions := s.subscriptions - {id});
        FailedSendKeeps(config, s, w, Reply(s0.(wire := s0.wire + [w]), t, Failed(SendFailed)), env.disconnectNotifyOk);
      }
    }
  }

  /** Only an OK for the latest AUTH, arriving after it, authenticates. */
  lemma AcceptingOkClears(config: Config, s: State, event: string)
    requires WireInv(config, s) && s.phase.Online?
    requires s.authentication.Some? && s.authentication.value.event == event
    ensures Cleared(config, s.wire + [GotOk(event, true)])
  {
    var a :| Unanswered(s.wire, a, event);
    assert AcceptedAt(s.wire + [GotOk(event, true)], a, |s.wire|);
  }

  lemma NotifyKeeps(config: Config, s: State, n: Notification, env: Env)
    requires WireInv(config, s) && s.phase.Online?
    ensures WireInv(config, Notify(s, n, env))
  {
    if !env.notifyOk { DisconnectKeeps(config, s, env.disconnectNotifyOk); }
  }

  lemma AcceptedOkKeeps(config: Config, s: State, event: string, env: Env)
    requires WireInv(config, s) && s.phase.Online? && Enumerates(env.order, s.subscriptions.Keys)
    requires s.authentication.Some? && s.authentication.value.event == event
    ensures WireInv(config, OnOk(s, event, true, "", env))
  {
    var log := s.wire + [GotOk(event, true)];
    SafeAppend(config, s.wire, GotOk(event, true));
    AcceptingOkClears(config, s, event);
    var requests := Requests(s.subscriptions, Attempted(env.order, env.sends));
    RequestsKeepSafety(config, log, requests);
    var s1 := s.(wire := log, authentication := None, open := true);
    var s2 := s1.(wire := s1.wire + requests);
    if env.sends < |env.order| {
      DisconnectKeeps(config, s2, env.disconnectNotifyOk);
    } else {
      forall id <- s.subscriptions ensures LastRequest(log + requests, id) == Some(s.subscriptions[id]) {
        ReplayRequestsAll(log, s.subscriptions, env.order, id);
      }
      NotifyKeeps(config, s2, Authenticated(s.authentication.value.publicKey), env);
    }
  }

  lemma OtherOkKeeps(config: Config, s: State, event: string, accepted: bool, message: string, env: Env)
    requires WireInv(config, s) && s.phase.Online? && Enumerates(env.order, s.subscriptions.Keys)
    requires s.authentication.Some? && s.authentication.value.event == event ==> !accepted
    ensures WireInv(config, OnOk(s, event, accepted, message, env))
  {
    var w := GotOk(event, accepted);
    LogKeeps(config, s, w);
    forall id ensures LastRequest(s.wire + [w], id) == LastRequest(s.wire, id) {
      LastRequestAppend(s.wire, w, id);
    }
    if s.authentication.Some? && s.authentication.value.event == event {
      var s1 := s.(wire := s.wire + [w], authentication := None, open := false);
      NotifyKeeps(config, s1, AuthenticationRejected(s.authentication.value.publicKey, message), env);
    }
  }

  lemma ChallengeKeeps(config: Config, s: State, challenge: string, env: Env)
    requires WireInv(config, s) && s.phase.Online?
    ensures WireInv(config, OnChallenge(config, s, challenge, env))
  {
    var log := s.wire + [GotChallenge];
    SafeAppend(config, s.wire, GotChallenge);
    forall id ensures LastRequest(log, id) == LastRequest(s.wire, id) {
      LastRequestAppend(s.wire, GotChallenge, id);
    }
    if config.signer.Some? && env.signed.Some? {
      SafeAppend(config, log, SentAuth(env.signed.value));
      assert Unanswered(log + [SentAuth(env.signed.value)], |log|, env.signed.value);
    }
  }

  lemma FrameKeeps(config: Config, s: State, frame: Frame, env: Env)
    requires WireInv(config, s) && s.phase.Online? && Enumerates(env.order, s.subscriptions.Keys)
    ensures WireInv(config, OnFrame(config, s, frame, env))
  {
    var s1 := s.(progress := true);
    match frame
    case EventFrame(subscription, event) => NotifyKeeps(config, s1, Event(subscription, event), env);
    case EndOfStored(subscription) => NotifyKeeps(config, s1, EndOfStoredEvents(subscription), env);
    case ClosedFrame(subscription, message) => NotifyKeeps(config, s1, Closed(subscription, message), env);
    case NoticeFrame(message) => NotifyKeeps(config, s1, Notice(message), env);
    case AuthFrame(challenge) => ChallengeKeeps(config, s1, challenge, env);
    case Undecodable => DisconnectKeeps(config, s1, env.disconnectNotifyOk);
    case OkFrame(event, accepted, message) =>
      if accepted && s.authentication.Some? && s.authentication.value.event == event {
        AcceptedOkKeeps(config, s1, event, env);
      } else {
        OtherOkKeeps(config, s1, event, accepted, message, env);
      }
  }

  lemma CommandKeeps(config: Config, s: State, command: Command, env: Env)
    requires WireInv(config, s) && s.phase.Online?
    ensures WireInv(config, OnCommand(s, command, env))
  {
    match command
    case Publish(event, t) => PublishKeeps(config, s, event, t, env);
    case Subscribe(id, filters, t) => SubscribeKeeps(config, s, id, filters, t, env);
    case Close(id, t) => CloseKeeps(config, s, id, t, env);
    case Shutdown =>
  }

  lemma StepKeepsWire(config: Config, s: State, m: Move)
    requires WireInv(config, s)
    ensures WireInv(config, Step(config, s, m))
  {
    if Enabled(s, m) {
      match m
      case ConnectOk(env) => ConnectKeeps(config, s, env);
      case Dequeue(command, env) => if s.phase.Online? { CommandKeeps(config, s, command, env); }
      case Receive(frame, env) => FrameKeeps(config, s, frame, env);
      case SocketLost(env) => DisconnectKeeps(config, s, env.disconnectNotifyOk);
      case _ =>
    }
  }

  lemma {:induction false} ExecKeepsWire(config: Config, moves: seq<Move>)
    ensures WireInv(config, Exec(config, moves))
  {
    if moves != [] {
      ExecKeepsWire(config, moves[..|moves| - 1]);
      StepKeepsWire(config, Exec(config, moves[..|moves| - 1]), moves[|moves| - 1]);
    }
  }

  /**
  Wire safety: in every run, on every connection, no EVENT, REQ or CLOSE frame
  goes out unless that connection's own history clears it.
  */
  lemma WireSafety(config: Config, moves: seq<Move>, log: seq<Wire>, p: nat)
    requires var s := Exec(config, moves); log == s.wire || log in s.past
    requires p < |log| && Ordinary(log[p])
    ensures Cleared(config, log[..p])
  {
    ExecKeepsWire(config, moves);
  }

  /**
  Subscription refinement: whenever the session is authenticated, the last
  request the relay holds for each mapped id carries exactly the mapped filters.
  */
  lemma SubscriptionsOnTheWire(config: Config, moves: seq<Move>, id: string)
    requires var s := Exec(config, moves); Live(s) && id in s.subscriptions
    ensures var s := Exec(config, moves); LastRequest(s.wire, id) == Some(s.subscriptions[id])
  {
    ExecKeepsWire(config, moves);
  }
}
