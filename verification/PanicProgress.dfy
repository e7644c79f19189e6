/**
How the threads of the panic lifecycle come to an end: every schedule is finite, from every
reachable state all threads can finish, and a thread gives up only for a reason.
*/
module PanicProgress {
  import opened Common
  import opened Panic

  // Every schedule is finite.

  /** How many actions a thread has left at most. */
  function Rank(t: Thread): nat {
    match t
    case Command(c) =>
      (match c case CommandCheck => 5 case CommandLock => 4 case CommandRecheck => 3 case CommandBody => 2
       case CommandUnlock => 1 case CommandEnd(_) => 0)
    case Panic(p) =>
      (match p case PanicCheck => 15 case PanicRedeem => 14 case PanicLock => 13 case PanicExchange => 12
       case PanicUnlock(won) => if won then 11 else 1
       case PanicEnd => 0)
    case Cleanup(c) =>
      (match c case CleanupTasks => 10 case CleanupLock => 9 case CleanupIdentity => 8 case CleanupAccount => 7
       case CleanupStore => 6 case CleanupErasing => 5 case CleanupUnlock(_) => 4 case FinishStore(_) => 3
       case FinishSend => 2 case CleanupEnd => 0)
    case Reload(l) =>
      (match l case ReloadLock => 4 case ReloadCheck => 3 case ReloadSwap => 2 case ReloadUnlock => 1 case ReloadEnd => 0)
    case Shutdown(d) =>
      (match d case ShutdownLock => 7 case ShutdownDecide => 6 case ShutdownUnlock(_) => 5 case ShutdownSubscribe => 4
       case ShutdownRead(seen) => if seen == 0 then 3 else 1
       case ShutdownWait(_) => 2
       case ShutdownEnd => 0)
  }

  function Work(threads: seq<Thread>): nat {
    if threads == [] then 0 else Work(threads[..|threads| - 1]) + Rank(threads[|threads| - 1])
  }

  lemma {:induction false} WorkUpdate(threads: seq<Thread>, i: nat, t: Thread)
    requires i < |threads|
    ensures Work(threads[i := t]) + Rank(threads[i]) == Work(threads) + Rank(t)
    decreases |threads|
  {
    var n := |threads| - 1;
    if i == n {
      assert threads[i := t][..n] == threads[..n];
    } else {
      assert threads[i := t][..n] == threads[..n][i := t];
      WorkUpdate(threads[..n], i, t);
    }
  }

  /** An action that gets a thread anywhere brings it closer to its end; any other changes nothing. */
  lemma ActionDescends(s: Shared, i: nat, t: Thread, choice: Choice)
    requires ThreadInv(s, i, t) && SharedInv(s)
    ensures var (s', t') := StepThread(s, i, t, choice);
            (s', t') == (s, t) || Rank(t') < Rank(t)
  {
  }

  lemma StepDescends(w: World, i: nat, choice: Choice)
    requires Inv(w)
    ensures Step(w, i, choice) == w || Work(Step(w, i, choice).threads) < Work(w.threads)
  {
    if i < |w.threads| {
      assert ThreadInv(w.shared, i, w.threads[i]);
      ActionDescends(w.shared, i, w.threads[i], choice);
      var t := StepThread(w.shared, i, w.threads[i], choice).1;
      WorkUpdate(w.threads, i, t);
      assert w.threads[i := w.threads[i]] == w.threads;
    }
  }

  /** The moves of a run that changed something. */
  function Effective(w: World, moves: seq<Move>): nat
    decreases |moves|
  {
    if moves == [] then 0
    else Effective(w, moves[..|moves| - 1]) + if Run(w, moves) == Run(w, moves[..|moves| - 1]) then 0 else 1
  }

  /** In every run no more moves change anything than the threads had actions. */
  lemma {:induction false} SchedulesAreFinite(w: World, moves: seq<Move>)
    requires Init(w)
    ensures Effective(w, moves) + Work(Run(w, moves).threads) <= Work(w.threads)
    decreases |moves|
  {
    if moves != [] {
      var front, last := moves[..|moves| - 1], moves[|moves| - 1];
      SchedulesAreFinite(w, front);
      RunKeeps(w, front);
      StepDescends(Run(w, front), last.thread, last.choice);
    }
  }

  // All threads can finish.

  predicate AllEnded(w: World) { forall j | 0 <= j < |w.threads| :: Ended(w.threads[j]) }

  /** While a thread is unfinished, some move brings the end closer. */
  lemma OneCloser(w: World, moves: seq<Move>, j: nat) returns (move: Move)
    requires Init(w) && j < |Run(w, moves).threads| && !Ended(Run(w, moves).threads[j])
    ensures Work(Run(w, moves + [move]).threads) < Work(Run(w, moves).threads)
  {
    var i := SomeThreadMoves(w, moves, j);
    move := Move(i, GO);
    OneMove(w, moves, move);
    RunKeeps(w, moves);
    StepDescends(Run(w, moves), i, GO);
    MovesOn(Run(w, moves), i);
  }

  /** From every reachable state some continuation ends all threads. */
  lemma {:induction false} CanFinish(w: World, moves: seq<Move>) returns (more: seq<Move>)
    requires Init(w)
    ensures AllEnded(Run(w, moves + more))
    decreases Work(Run(w, moves).threads)
  {
    more := [];
    assert moves + more == moves;
    if !AllEnded(Run(w, moves)) {
      var j :| 0 <= j < |Run(w, moves).threads| && !Ended(Run(w, moves).threads[j]);
      var move := OneCloser(w, moves, j);
      var rest := CanFinish(w, moves + [move]);
      more := [move] + rest;
      assert moves + more == moves + [move] + rest;
    }
  }

  lemma MovesOn(v: World, i: nat)
    requires CanMove(v, i)
    ensures Step(v, i, GO) != v
  {
    assert Step(v, i, GO).threads[i] != v.threads[i];
  }

  lemma EndedHoldsNothing(s: Shared, i: nat, t: Thread)
    requires ThreadInv(s, i, t) && Ended(t)
    ensures s.mutex != Some(i) && s.writer != Some(i) && i !in s.readers && (s.eraser == Some(i) ==> s.life != Erasing)
  {
  }

  /** Once all have ended, every lock is free and no erase is under way. */
  lemma LocksAreFree(w: World, moves: seq<Move>)
    requires Init(w) && AllEnded(Run(w, moves))
    ensures var s := Run(w, moves).shared; s.mutex == None && s.writer == None && s.readers == {} && s.life != Erasing
  {
    RunKeeps(w, moves);
    var v := Run(w, moves);
    var s := v.shared;
    forall i: nat | i < |v.threads|
      ensures s.mutex != Some(i) && s.writer != Some(i) && i !in s.readers && (s.eraser == Some(i) ==> s.life != Erasing)
    {
      EndedHoldsNothing(s, i, v.threads[i]);
    }
    assert Holders(s, |v.threads|);
  }

  // Why a thread leaves.

  /** On its way out, or out. */
  predicate Leaving(t: Thread) {
    match t
    case Command(c) => c.CommandEnd?
    case Panic(p) => p.PanicEnd? || p == PanicUnlock(false)
    case Cleanup(c) => c.CleanupEnd?
    case Reload(l) => l.ReloadUnlock? || l.ReloadEnd?
    case Shutdown(d) => d.ShutdownEnd? || d == ShutdownUnlock(false)
  }

  /** Its work is done, or the lifecycle or the confirmation forbids it. */
  predicate Reason(s: Shared, t: Thread, choice: Choice) {
    match t
    case Command(c) => c.CommandUnlock? || ((c.CommandCheck? || c.CommandRecheck?) && s.life != Active)
    case Panic(p) => ((p.PanicCheck? || p.PanicExchange?) && s.life != Active) || (p.PanicRedeem? && !choice.ok)
    case Cleanup(c) => c.FinishSend?
    case Reload(l) => l.ReloadSwap? || (l.ReloadCheck? && s.life != Active)
    case Shutdown(d) => (d.ShutdownDecide? && s.life != Erasing) || (d.ShutdownRead? && Terminal(s.life))
  }

  /** A thread at work leaves exactly then. */
  lemma LeavesIff(s: Shared, i: nat, t: Thread, choice: Choice)
    requires !Leaving(t)
    ensures Leaving(StepThread(s, i, t, choice).1) <==> Reason(s, t, choice)
  {
  }

  /** A command served is one whose body ran. */
  lemma ServedIff(s: Shared, i: nat, t: Thread, choice: Choice)
    requires !Leaving(t)
    ensures StepThread(s, i, t, choice).1 == Command(CommandEnd(true)) <==> t == Command(CommandUnlock)
    ensures StepThread(s, i, t, choice).1 == Command(CommandUnlock) ==> t == Command(CommandBody) || t == Command(CommandUnlock)
  {
  }

  lemma StillLeaving(s: Shared, i: nat, t: Thread, choice: Choice)
    requires Leaving(t)
    ensures Leaving(StepThread(s, i, t, choice).1)
    ensures t.Command? ==> StepThread(s, i, t, choice).1 == t
  {
  }

  /** Step `n` is the one at which thread `i` took its leave, with its reason. */
  predicate LeftAt(w: World, moves: seq<Move>, i: nat, n: nat) {
    && n < |moves| && moves[n].thread == i && i < |Run(w, moves[..n]).threads|
    && !Leaving(Run(w, moves[..n]).threads[i])
    && Reason(Run(w, moves[..n]).shared, Run(w, moves[..n]).threads[i], moves[n].choice)
  }

  lemma NoneLeavesAtFirst(w: World)
    requires Init(w)
    ensures forall i | 0 <= i < |w.threads| :: !Leaving(w.threads[i])
  {
    forall i | 0 <= i < |w.threads| ensures !Leaving(w.threads[i]) { assert Begins(w.threads[i]); }
  }

  lemma ThreadCount(w: World, moves: seq<Move>)
    ensures |Run(w, moves).threads| == |w.threads|
    decreases |moves|
  {
    if moves != [] { ThreadCount(w, moves[..|moves| - 1]); }
  }

  /**
  In every run a thread that has left did so at one of its own steps for a reason; a command
  that ended without being served met a lifecycle that was not active.
  */
  lemma {:induction false} LeavesForAReason(w: World, moves: seq<Move>, i: nat) returns (n: nat)
    requires Init(w) && i < |w.threads| && i < |Run(w, moves).threads| && Leaving(Run(w, moves).threads[i])
    ensures LeftAt(w, moves, i, n)
    ensures Run(w, moves).threads[i] == Command(CommandEnd(false)) ==> Run(w, moves[..n]).shared.life != Active
    ensures Run(w, moves).threads[i] == Command(CommandEnd(true)) ==> Run(w, moves[..n]).threads[i] == Command(CommandUnlock)
    decreases |moves|
  {
    n := 0;
    NoneLeavesAtFirst(w);
    if moves == [] {
      assert false;
    } else {
      var front, last := moves[..|moves| - 1], moves[|moves| - 1];
      var v := Run(w, front);
      ThreadCount(w, front);
      if Leaving(v.threads[i]) {
        StillLeaving(v.shared, i, v.threads[i], last.choice);
        n := LeavesForAReason(w, front, i);
        assert front[..n] == moves[..n];
      } else {
        n := |moves| - 1;
        LeavesIff(v.shared, i, v.threads[i], last.choice);
        ServedIff(v.shared, i, v.threads[i], last.choice);
      }
    }
  }
}
