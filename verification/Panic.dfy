/**
The daemon's panic lifecycle: commands, the erase, configuration reloads and process
shutdown as threads over one atomic state, a transition mutex, a read/write lock and
a watch channel. Every `Step` is one atomic action of one thread, so a run is any
interleaving.
*/
module Panic {
  import opened Common

  datatype Life = Active | Erasing | CleanupComplete | CleanupFailed | Stopping

  datatype Store = Whole | Touched | Erased

  // Where a thread stands; each name is the action it does next.

  /** A command other than panic. */
  datatype CommandAt =
    | CommandCheck
    | CommandLock
    | CommandRecheck
    | CommandBody
    | CommandUnlock
    | CommandEnd(ran: bool)

  /** The panic command up to the exchange. */
  datatype PanicAt =
    | PanicCheck
    | PanicRedeem
    | PanicLock
    | PanicExchange
    | PanicUnlock(won: bool)
    | PanicEnd

  /** The cleanup that the winner of the exchange starts. */
  datatype CleanupAt =
    | CleanupTasks
    | CleanupLock
    | CleanupIdentity
    | CleanupAccount
    | CleanupStore
    | CleanupErasing
    | CleanupUnlock(erased: bool)
    | FinishStore(erased: bool)
    | FinishSend
    | CleanupEnd

  /** Work done under the transition mutex while active: a reload, or starting the hosted service. */
  datatype ReloadAt =
    | ReloadLock
    | ReloadCheck
    | ReloadSwap
    | ReloadUnlock
    | ReloadEnd

  /** Process shutdown. */
  datatype ShutdownAt =
    | ShutdownLock
    | ShutdownDecide
    | ShutdownUnlock(wait: bool)
    | ShutdownSubscribe
    | ShutdownRead(seen: nat)
    | ShutdownWait(seen: nat)
    | ShutdownEnd

  datatype Thread =
    | Command(command: CommandAt)
    | Panic(panic: PanicAt)
    | Cleanup(cleanup: CleanupAt)
    | Reload(reload: ReloadAt)
    | Shutdown(shutdown: ShutdownAt)

  /** Everything the threads share; `eraser` names the one that won the exchange. */
  datatype Shared = Shared(
    life: Life,
    mutex: Option<nat>,
    readers: set<nat>,
    writer: Option<nat>,
    version: nat,
    identity: bool,
    account: bool,
    store: Store,
    config: nat,
    eraser: Option<nat>,
    history: seq<Life>)

  datatype World = World(shared: Shared, threads: seq<Thread>)

  /** What the world decides for a step: a confirmation, an erase, a crash of the cleanup task. */
  datatype Choice = Choice(ok: bool, crash: bool)

  predicate Begins(t: Thread) {
    t in {Command(CommandCheck), Panic(PanicCheck), Reload(ReloadLock), Shutdown(ShutdownLock)}
  }

  predicate Init(w: World) {
    && w.shared.life == Active && w.shared.mutex == None && w.shared.readers == {} && w.shared.writer == None
    && w.shared.version == 0 && w.shared.identity && w.shared.account && w.shared.store == Whole
    && w.shared.eraser == None && w.shared.history == [Active]
    && forall i | 0 <= i < |w.threads| :: Begins(w.threads[i])
  }

  function Live(s: Shared, life: Life): Shared { s.(life := life, history := s.history + [life]) }

  // The three operations on the atomic state.

  function AfterBegin(life: Life): Life { if life == Active then Erasing else life }

  function AfterShutdown(life: Life): Life { if life == Active then Stopping else life }

  function AfterFinish(erased: bool): Life { if erased then CleanupComplete else CleanupFailed }

  predicate Terminal(life: Life) { life == CleanupComplete || life == CleanupFailed }

  function StepCommand(s: Shared, i: nat, t: CommandAt): (Shared, CommandAt) {
    match t
    case CommandCheck => (s, if s.life == Active then CommandLock else CommandEnd(false))
    case CommandLock => if s.writer.Some? then (s, t) else (s.(readers := s.readers + {i}), CommandRecheck)
    case CommandRecheck =>
      if s.life == Active then (s, CommandBody) else (s.(readers := s.readers - {i}), CommandEnd(false))
    case CommandBody => (s, CommandUnlock)
    case CommandUnlock => (s.(readers := s.readers - {i}), CommandEnd(true))
    case CommandEnd(_) => (s, t)
  }

  function StepPanic(s: Shared, i: nat, t: PanicAt, choice: Choice): (Shared, Thread) {
    match t
    case PanicCheck => (s, Panic(if s.life == Active then PanicRedeem else PanicEnd))
    case PanicRedeem => (s, Panic(if choice.ok then PanicLock else PanicEnd))
    case PanicLock => if s.mutex.Some? then (s, Panic(t)) else (s.(mutex := Some(i)), Panic(PanicExchange))
    case PanicExchange =>
      if s.life == Active then (Live(s, AfterBegin(s.life)).(eraser := Some(i)), Panic(PanicUnlock(true)))
      else (s, Panic(PanicUnlock(false)))
    case PanicUnlock(won) => (s.(mutex := None), if won then Cleanup(CleanupTasks) else Panic(PanicEnd))
    case PanicEnd => (s, Panic(t))
  }

  /** The cleanup task; a crash drops its lock and counts as a failed erase. */
  function StepCleanup(s: Shared, i: nat, t: CleanupAt, choice: Choice): (Shared, CleanupAt) {
    match t
    case CleanupTasks => (s, if choice.crash then FinishStore(false) else CleanupLock)
    case CleanupLock =>
      if choice.crash then (s, FinishStore(false))
      else if s.writer.Some? || s.readers != {} then (s, t)
      else (s.(writer := Some(i)), CleanupIdentity)
    case CleanupIdentity =>
      if choice.crash then (s, CleanupUnlock(false)) else (s.(identity := false), CleanupAccount)
    case CleanupAccount =>
      if choice.crash then (s, CleanupUnlock(false)) else (s.(account := false), CleanupStore)
    case CleanupStore =>
      if choice.crash then (s, CleanupUnlock(false)) else (s.(store := Touched), CleanupErasing)
    case CleanupErasing =>
      if choice.crash || !choice.ok then (s, CleanupUnlock(false)) else (s.(store := Erased), CleanupUnlock(true))
    case CleanupUnlock(erased) => (s.(writer := None), FinishStore(erased))
    case FinishStore(erased) => (Live(s, AfterFinish(erased)), FinishSend)
    case FinishSend => (s.(version := s.version + 1), CleanupEnd)
    case CleanupEnd => (s, t)
  }

  function StepReload(s: Shared, i: nat, t: ReloadAt, choice: Choice): (Shared, ReloadAt) {
    match t
    case ReloadLock => if s.mutex.Some? then (s, t) else (s.(mutex := Some(i)), ReloadCheck)
    case ReloadCheck => (s, if s.life == Active then ReloadSwap else ReloadUnlock)
    case ReloadSwap => (if choice.ok then s.(config := s.config + 1) else s, ReloadUnlock)
    case ReloadUnlock => (s.(mutex := None), ReloadEnd)
    case ReloadEnd => (s, t)
  }

  function StepShutdown(s: Shared, i: nat, t: ShutdownAt): (Shared, ShutdownAt) {
    match t
    case ShutdownLock => if s.mutex.Some? then (s, t) else (s.(mutex := Some(i)), ShutdownDecide)
    case ShutdownDecide =>
      if s.life == Active then (Live(s, AfterShutdown(s.life)), ShutdownUnlock(false))
      else (s, ShutdownUnlock(s.life == Erasing))
    case ShutdownUnlock(wait) => (s.(mutex := None), if wait then ShutdownSubscribe else ShutdownEnd)
    case ShutdownSubscribe => (s, ShutdownRead(s.version))
    case ShutdownRead(seen) => (s, if Terminal(s.life) then ShutdownEnd else ShutdownWait(seen))
    case ShutdownWait(seen) => if s.version == seen then (s, t) else (s, ShutdownRead(s.version))
    case ShutdownEnd => (s, t)
  }

  function StepThread(s: Shared, i: nat, t: Thread, choice: Choice): (Shared, Thread) {
    match t
    case Command(c) => var r := StepCommand(s, i, c); (r.0, Command(r.1))
    case Panic(p) => StepPanic(s, i, p, choice)
    case Cleanup(c) => var r := StepCleanup(s, i, c, choice); (r.0, Cleanup(r.1))
    case Reload(l) => var r := StepReload(s, i, l, choice); (r.0, Reload(r.1))
    case Shutdown(d) => var r := StepShutdown(s, i, d); (r.0, Shutdown(r.1))
  }

  /** One action of thread `i`; a thread that is blocked or done leaves the world alone. */
  function Step(w: World, i: nat, choice: Choice): World {
    if i >= |w.threads| then w
    else
      var (shared, thread) := StepThread(w.shared, i, w.threads[i], choice);
      World(shared, w.threads[i := thread])
  }

  datatype Move = Move(thread: nat, choice: Choice)

  function Run(w: World, moves: seq<Move>): World
    decreases |moves|
  {
    if moves == [] then w
    else
      var last := moves[|moves| - 1];
      Step(Run(w, moves[..|moves| - 1]), last.thread, last.choice)
  }

  // What every step keeps.

  predicate HoldsMutex(t: Thread) {
    match t
    case Panic(p) => p.PanicExchange? || p.PanicUnlock?
    case Reload(l) => l.ReloadCheck? || l.ReloadSwap? || l.ReloadUnlock?
    case Shutdown(d) => d.ShutdownDecide? || d.ShutdownUnlock?
    case _ => false
  }

  predicate HoldsRead(t: Thread) {
    t.Command? && (t.command.CommandRecheck? || t.command.CommandBody? || t.command.CommandUnlock?)
  }

  predicate HoldsWrite(t: Thread) {
    && t.Cleanup?
    && !(t.cleanup.CleanupTasks? || t.cleanup.CleanupLock? || t.cleanup.FinishStore? || t.cleanup.FinishSend?
         || t.cleanup.CleanupEnd?)
  }

  predicate Finished(t: Thread) { t.Cleanup? && (t.cleanup.FinishSend? || t.cleanup.CleanupEnd?) }

  /** From the won exchange to the stored result. */
  predicate Cleaning(t: Thread) { t == Panic(PanicUnlock(true)) || (t.Cleanup? && !Finished(t)) }

  predicate Waiting(d: ShutdownAt) {
    d == ShutdownUnlock(true) || d.ShutdownSubscribe? || d.ShutdownRead? || d.ShutdownWait?
  }

  predicate Halted(life: Life) { life != Active && life != Erasing }

  /** The locks are held by exactly the threads whose position says so. */
  predicate LockAt(s: Shared, i: nat, t: Thread) {
    && (HoldsMutex(t) <==> s.mutex == Some(i))
    && (HoldsRead(t) <==> i in s.readers)
    && (HoldsWrite(t) <==> s.writer == Some(i))
  }

  /** The thread that began the erase is the only one in the cleanup, and its position tells the state. */
  predicate EraserAt(s: Shared, i: nat, t: Thread) {
    && (Cleaning(t) <==> s.eraser == Some(i) && s.life == Erasing)
    && (Finished(t) <==> s.eraser == Some(i) && s.life != Erasing)
    && (s.eraser == Some(i) ==> (s.version > 0 <==> t == Cleanup(CleanupEnd)))
  }

  /** What the cleanup has destroyed by each position. */
  predicate ErasedAt(s: Shared, t: Thread) {
    t.Cleanup? ==>
      && (t.cleanup.CleanupAccount? || t.cleanup.CleanupStore? || t.cleanup.CleanupErasing? ==> !s.identity)
      && (t.cleanup.CleanupStore? || t.cleanup.CleanupErasing? ==> !s.account)
      && (t.cleanup == CleanupUnlock(true) || t.cleanup == FinishStore(true) ==> Gone(s))
  }

  /** Identity, account and store are erased. */
  predicate Gone(s: Shared) { !s.identity && !s.account && s.store == Erased }

  /** Bodies see an untouched store; a swap happens while active; a returned shutdown is past erasing. */
  predicate WorkAt(s: Shared, t: Thread) {
    match t
    case Command(c) => c.CommandBody? ==> s.store == Whole && s.identity && s.account
    case Reload(l) => l.ReloadSwap? ==> s.life == Active
    case Shutdown(d) =>
      && (d == ShutdownUnlock(false) || d == ShutdownEnd ==> Halted(s.life))
      && (Waiting(d) ==> s.eraser.Some?)
      // A waiter that has seen the announcement has also seen the result.
      && (d.ShutdownRead? ==> d.seen == 0 || Terminal(s.life))
      && (d.ShutdownWait? ==> d.seen == 0)
    case _ => true
  }

  predicate ThreadInv(s: Shared, i: nat, t: Thread) {
    LockAt(s, i, t) && EraserAt(s, i, t) && ErasedAt(s, t) && WorkAt(s, t)
  }

  /** The only ways a process can live. */
  predicate Lived(history: seq<Life>, life: Life) {
    || (life == Active && history == [Active])
    || (life == Stopping && history == [Active, Stopping])
    || (life == Erasing && history == [Active, Erasing])
    || (Terminal(life) && history == [Active, Erasing, life])
  }

  /** Nothing is destroyed or announced unless some thread began the erase. */
  predicate SharedInv(s: Shared) {
    && (s.writer.Some? ==> s.readers == {})
    && (s.eraser.None? <==> s.life == Active || s.life == Stopping)
    && ((s.store != Whole || !s.identity || !s.account) ==> s.eraser.Some?)
    && (s.version > 0 ==> Terminal(s.life))
    && (s.life == CleanupComplete ==> Gone(s))
    && Lived(s.history, s.life)
  }

  /** Every lock is held, and every erase done, by one of the threads. */
  predicate Holders(s: Shared, n: nat) {
    && (s.mutex.Some? ==> s.mutex.value < n) && (s.writer.Some? ==> s.writer.value < n)
    && (s.eraser.Some? ==> s.eraser.value < n) && (forall r <- s.readers :: r < n)
  }

  predicate Inv(w: World) {
    && SharedInv(w.shared)
    && Holders(w.shared, |w.threads|)
    && forall i | 0 <= i < |w.threads| :: ThreadInv(w.shared, i, w.threads[i])
  }

  lemma InitInv(w: World)
    requires Init(w)
    ensures Inv(w)
  {
    forall i | 0 <= i < |w.threads| ensures ThreadInv(w.shared, i, w.threads[i]) {
      assert Begins(w.threads[i]);
    }
  }

  /** What thread `i` may do to the shared state without disturbing another thread. */
  predicate Frame(s: Shared, v: Shared, i: nat) {
    && (v.mutex == s.mutex || (s.mutex.None? && v.mutex == Some(i)) || (s.mutex == Some(i) && v.mutex.None?))
    && (v.writer == s.writer || (s.writer.None? && v.writer == Some(i)) || (s.writer == Some(i) && v.writer.None?))
    && v.readers - {i} == s.readers - {i}
    && ((v.eraser == s.eraser && v.life == s.life) || v.eraser == Some(i) || s.eraser == v.eraser == None)
    && (s.eraser.None? || v.eraser == s.eraser)
    && (v.version == s.version || v.eraser == Some(i))
    && ((v.store == s.store && v.identity == s.identity && v.account == s.account)
        || (s.readers == {} && s.eraser == Some(i)))
    && (v.life == s.life || (!Halted(s.life) && (s.life == Active ==> s.mutex == Some(i))))
  }

  lemma OtherThread(s: Shared, v: Shared, i: nat, j: nat, t: Thread)
    requires Frame(s, v, i) && j != i && ThreadInv(s, j, t)
    ensures ThreadInv(v, j, t)
  {
    assert j in v.readers - {i} <==> j in v.readers;
    assert j in s.readers - {i} <==> j in s.readers;
  }

  /** One step keeps the invariant of its thread, and frames it for the others. */
  predicate Keeps(s: Shared, i: nat, r: (Shared, Thread)) {
    && Frame(s, r.0, i) && SharedInv(r.0) && ThreadInv(r.0, i, r.1)
    && (r.0.eraser == s.eraser || r.0.eraser == Some(i)) && r.0.readers <= s.readers + {i}
  }

  lemma CommandKeeps(s: Shared, i: nat, c: CommandAt)
    requires SharedInv(s) && ThreadInv(s, i, Command(c))
    ensures var r := StepCommand(s, i, c); Keeps(s, i, (r.0, Command(r.1)))
  {
  }

  lemma PanicKeeps(s: Shared, i: nat, p: PanicAt, choice: Choice)
    requires SharedInv(s) && ThreadInv(s, i, Panic(p))
    ensures Keeps(s, i, StepPanic(s, i, p, choice))
  {
  }

  lemma CleanupKeeps(s: Shared, i: nat, c: CleanupAt, choice: Choice)
    requires SharedInv(s) && ThreadInv(s, i, Cleanup(c))
    ensures var r := StepCleanup(s, i, c, choice); Keeps(s, i, (r.0, Cleanup(r.1)))
  {
  }

  lemma ReloadKeeps(s: Shared, i: nat, l: ReloadAt, choice: Choice)
    requires SharedInv(s) && ThreadInv(s, i, Reload(l))
    ensures var r := StepReload(s, i, l, choice); Keeps(s, i, (r.0, Reload(r.1)))
  {
  }

  lemma ShutdownKeeps(s: Shared, i: nat, d: ShutdownAt)
    requires SharedInv(s) && ThreadInv(s, i, Shutdown(d))
    ensures var r := StepShutdown(s, i, d); Keeps(s, i, (r.0, Shutdown(r.1)))
  {
  }

  lemma ThreadKeeps(s: Shared, i: nat, t: Thread, choice: Choice)
    requires SharedInv(s) && ThreadInv(s, i, t)
    ensures Keeps(s, i, StepThread(s, i, t, choice))
  {
    match t
    case Command(c) => CommandKeeps(s, i, c);
    case Panic(p) => PanicKeeps(s, i, p, choice);
    case Cleanup(c) => CleanupKeeps(s, i, c, choice);
    case Reload(l) => ReloadKeeps(s, i, l, choice);
    case Shutdown(d) => ShutdownKeeps(s, i, d);
  }

  lemma StepKeeps(w: World, i: nat, choice: Choice)
    requires Inv(w)
    ensures Inv(Step(w, i, choice))
  {
    if i < |w.threads| {
      var v := Step(w, i, choice);
      ThreadKeeps(w.shared, i, w.threads[i], choice);
      forall j | 0 <= j < |v.threads| ensures ThreadInv(v.shared, j, v.threads[j]) {
        if j != i { OtherThread(w.shared, v.shared, i, j, w.threads[j]); }
      }
    }
  }

  lemma {:induction false} RunKeeps(w: World, moves: seq<Move>)
    requires Init(w)
    ensures Inv(Run(w, moves)) && |Run(w, moves).threads| == |w.threads|
    decreases |moves|
  {
    if moves == [] {
      InitInv(w);
    } else {
      RunKeeps(w, moves[..|moves| - 1]);
      var last := moves[|moves| - 1];
      StepKeeps(Run(w, moves[..|moves| - 1]), last.thread, last.choice);
    }
  }

  // What holds in every run.

  /**
  In every interleaving: the process lives one of four lives, so at most one exchange ever
  succeeds and stopping and erasing exclude each other; command bodies see everything whole;
  a configuration is swapped only while active; a shutdown that has returned is past erasing.
  */
  lemma EraseExclusion(w: World, moves: seq<Move>)
    requires Init(w)
    ensures var v := Run(w, moves);
            && Lived(v.shared.history, v.shared.life)
            && (forall i | 0 <= i < |v.threads| && v.threads[i] == Command(CommandBody) ::
                  v.shared.store == Whole && v.shared.identity && v.shared.account)
            && (forall i | 0 <= i < |v.threads| && v.threads[i] == Reload(ReloadSwap) :: v.shared.life == Active)
            && (forall i | 0 <= i < |v.threads| && v.threads[i] == Shutdown(ShutdownEnd) :: Halted(v.shared.life))
            && (forall i, j | 0 <= i < j < |v.threads| ::
                  !((Cleaning(v.threads[i]) || Finished(v.threads[i]))
                    && (Cleaning(v.threads[j]) || Finished(v.threads[j]))))
  {
    RunKeeps(w, moves);
    var v := Run(w, moves);
    forall i | 0 <= i < |v.threads|
      ensures ThreadInv(v.shared, i, v.threads[i])
    {
    }
  }

  // How an erase ends.

  /** The cleanup task crashes, or the store cannot be erased. */
  predicate Fault(w: World, m: Move) {
    && m.thread < |w.threads| && w.threads[m.thread].Cleanup?
    && var at := w.threads[m.thread].cleanup;
       || (m.choice.crash && (at.CleanupTasks? || at.CleanupLock? || at.CleanupIdentity? || at.CleanupAccount? || at.CleanupStore?))
       || (at.CleanupErasing? && (m.choice.crash || !m.choice.ok))
  }

  predicate Faulted(w: World, moves: seq<Move>)
    decreases |moves|
  {
    moves != [] &&
    (Faulted(w, moves[..|moves| - 1]) || Fault(Run(w, moves[..|moves| - 1]), moves[|moves| - 1]))
  }

  predicate Broken(w: World) {
    || w.shared.life == CleanupFailed
    || (w.shared.eraser.Some? && w.shared.eraser.value < |w.threads|
        && w.threads[w.shared.eraser.value] in {Cleanup(CleanupUnlock(false)), Cleanup(FinishStore(false))})
  }

  lemma BreaksByFault(w: World, m: Move)
    requires Inv(w)
    ensures Broken(Step(w, m.thread, m.choice)) <==> Broken(w) || Fault(w, m)
  {
    if m.thread < |w.threads| {
      assert ThreadInv(w.shared, m.thread, w.threads[m.thread]);
      ThreadKeeps(w.shared, m.thread, w.threads[m.thread], m.choice);
      StepKeeps(w, m.thread, m.choice);
    }
  }

  lemma {:induction false} BrokenIff(w: World, moves: seq<Move>)
    requires Init(w)
    ensures Broken(Run(w, moves)) <==> Faulted(w, moves)
    decreases |moves|
  {
    if moves != [] {
      BrokenIff(w, moves[..|moves| - 1]);
      RunKeeps(w, moves[..|moves| - 1]);
      BreaksByFault(Run(w, moves[..|moves| - 1]), moves[|moves| - 1]);
    }
  }

  /**
  A completed cleanup has erased identity, account and store. When a cleanup has ended it is
  complete exactly if the task never crashed and the store could be erased.
  */
  lemma CompleteMeansErased(w: World, moves: seq<Move>)
    requires Init(w)
    ensures var v := Run(w, moves).shared;
            && (v.life == CleanupComplete ==> Gone(v))
            && (v.life == CleanupFailed ==> Faulted(w, moves)) && (v.life == CleanupComplete ==> !Faulted(w, moves))
  {
    RunKeeps(w, moves);
    BrokenIff(w, moves);
    var v := Run(w, moves);
    if v.shared.eraser.Some? {
      var e := v.shared.eraser.value;
      assert ThreadInv(v.shared, e, v.threads[e]);
    }
  }

  /** Thread `i` redeemed a confirmation. */
  predicate Redeems(w: World, m: Move, i: nat) {
    m.thread == i < |w.threads| && w.threads[i] == Panic(PanicRedeem) && m.choice.ok
  }

  predicate Redeemed(w: World, moves: seq<Move>, i: nat)
    decreases |moves|
  {
    moves != [] &&
    (Redeemed(w, moves[..|moves| - 1], i) || Redeems(Run(w, moves[..|moves| - 1]), moves[|moves| - 1], i))
  }

  predicate PastRedeem(t: Thread) {
    t.Cleanup? || (t.Panic? && (t.panic.PanicLock? || t.panic.PanicExchange? || t.panic.PanicUnlock?))
  }

  lemma {:induction false} PastRedeemRedeemed(w: World, moves: seq<Move>, i: nat)
    requires Init(w) && i < |w.threads|
    ensures |Run(w, moves).threads| == |w.threads| && (PastRedeem(Run(w, moves).threads[i]) ==> Redeemed(w, moves, i))
    decreases |moves|
  {
    if moves == [] {
      assert Begins(w.threads[i]);
    } else {
      PastRedeemRedeemed(w, moves[..|moves| - 1], i);
    }
  }

  /** No erase without a confirmation: the thread that began it redeemed one. */
  lemma ErasesOnlyConfirmed(w: World, moves: seq<Move>)
    requires Init(w) && Run(w, moves).shared.eraser.Some?
    ensures Redeemed(w, moves, Run(w, moves).shared.eraser.value)
  {
    RunKeeps(w, moves);
    var v := Run(w, moves);
    var e := v.shared.eraser.value;
    assert ThreadInv(v.shared, e, v.threads[e]);
    PastRedeemRedeemed(w, moves, e);
  }

  lemma {:induction false} RunSplits(w: World, moves: seq<Move>, more: seq<Move>)
    ensures Run(w, moves + more) == Run(Run(w, moves), more)
    decreases |more|
  {
    if more == [] {
      assert moves + more == moves;
    } else {
      RunSplits(w, moves, more[..|more| - 1]);
      assert (moves + more)[..|moves + more| - 1] == moves + more[..|more| - 1];
    }
  }

  /** What can no longer change: a halted life, a touched store, an erased identity. */
  predicate Irreversible(s: Shared, v: Shared) {
    && (Halted(s.life) ==> v.life == s.life)
    && (s.store != Whole ==> v.store != Whole) && (!s.identity ==> !v.identity) && (!s.account ==> !v.account)
  }

  lemma StepIrreversible(s: Shared, i: nat, t: Thread, choice: Choice)
    requires SharedInv(s) && ThreadInv(s, i, t)
    ensures Irreversible(s, StepThread(s, i, t, choice).0)
  {
    ThreadKeeps(s, i, t, choice);
  }

  lemma {:induction false} RunIrreversible(w: World, more: seq<Move>)
    requires Inv(w)
    ensures Inv(Run(w, more)) && Irreversible(w.shared, Run(w, more).shared)
    decreases |more|
  {
    if more != [] {
      RunIrreversible(w, more[..|more| - 1]);
      var v, last := Run(w, more[..|more| - 1]), more[|more| - 1];
      StepKeeps(v, last.thread, last.choice);
      if last.thread < |v.threads| {
        StepIrreversible(v.shared, last.thread, v.threads[last.thread], last.choice);
      }
    }
  }

  /** Terminal states and stopping are final, and once the erase has touched the store no body runs again. */
  lemma NoBodyAfterErase(w: World, moves: seq<Move>, more: seq<Move>)
    requires Init(w)
    ensures var v, u := Run(w, moves), Run(w, moves + more);
            && (Halted(v.shared.life) ==> u.shared.life == v.shared.life)
            && (v.shared.store != Whole ==> forall i | 0 <= i < |u.threads| :: u.threads[i] != Command(CommandBody))
  {
    RunKeeps(w, moves);
    RunSplits(w, moves, more);
    RunIrreversible(Run(w, moves), more);
    var u := Run(w, moves + more);
    forall i | 0 <= i < |u.threads| ensures ThreadInv(u.shared, i, u.threads[i]) {
    }
  }

  predicate Swaps(v: World, m: Move) {
    m.thread < |v.threads| && v.threads[m.thread] == Reload(ReloadSwap) && m.choice.ok
  }

  lemma ThreadSwaps(s: Shared, i: nat, t: Thread, choice: Choice)
    requires ThreadInv(s, i, t)
    ensures var u := StepThread(s, i, t, choice).0;
            if t == Reload(ReloadSwap) && choice.ok
            then u == s.(config := s.config + 1) && s.life == Active && s.mutex == Some(i)
            else u.config == s.config
  {
  }

  lemma OneMove(w: World, moves: seq<Move>, move: Move)
    ensures Run(w, moves + [move]) == Step(Run(w, moves), move.thread, move.choice)
  {
    assert (moves + [move])[..|moves|] == moves;
  }

  /** The configuration changes exactly at a swap, within an active, unbroken transition. */
  lemma SwapWhileActive(w: World, moves: seq<Move>, move: Move)
    requires Init(w)
    ensures var v, u := Run(w, moves), Run(w, moves + [move]);
            if Swaps(v, move)
            then && u.shared.config == v.shared.config + 1 && v.shared.life == Active && u.shared.life == Active
                 && v.shared.mutex == u.shared.mutex == Some(move.thread)
            else u.shared.config == v.shared.config
  {
    RunKeeps(w, moves);
    OneMove(w, moves, move);
    var v := Run(w, moves);
    if move.thread < |v.threads| { ThreadSwaps(v.shared, move.thread, v.threads[move.thread], move.choice); }
  }

  // No thread is left hanging.

  predicate Ended(t: Thread) {
    match t
    case Command(c) => c.CommandEnd?
    case Panic(p) => p.PanicEnd?
    case Cleanup(c) => c.CleanupEnd?
    case Reload(l) => l.ReloadEnd?
    case Shutdown(d) => d.ShutdownEnd?
  }

  const GO := Choice(true, false)

  predicate CanMove(w: World, i: nat) {
    i < |w.threads| && StepThread(w.shared, i, w.threads[i], GO).1 != w.threads[i]
  }

  lemma HolderMoves(w: World, i: nat)
    requires i < |w.threads| && (HoldsMutex(w.threads[i]) || HoldsRead(w.threads[i]) || HoldsWrite(w.threads[i]))
    ensures CanMove(w, i)
  {
  }

  /** The eraser moves unless a command still runs; then that command moves. */
  lemma EraserMoves(w: World) returns (i: nat)
    requires Inv(w) && w.shared.eraser.Some? && w.shared.version == 0
    ensures CanMove(w, i)
  {
    var e := w.shared.eraser.value;
    assert ThreadInv(w.shared, e, w.threads[e]);
    i := e;
    if w.threads[e] == Cleanup(CleanupLock) {
      if w.shared.writer.Some? {
        i := w.shared.writer.value;
        assert ThreadInv(w.shared, i, w.threads[i]);
        HolderMoves(w, i);
      } else if w.shared.readers != {} {
        i :| i in w.shared.readers;
        assert ThreadInv(w.shared, i, w.threads[i]);
        HolderMoves(w, i);
      }
    }
  }

  /**
  No deadlock and no lost wake-up: while any thread is unfinished, some thread can move. A
  shutdown waiting for the cleanup is woken by its announcement even if it subscribed late.
  */
  lemma SomeThreadMoves(w: World, moves: seq<Move>, j: nat) returns (i: nat)
    requires Init(w) && j < |Run(w, moves).threads| && !Ended(Run(w, moves).threads[j])
    ensures CanMove(Run(w, moves), i)
  {
    RunKeeps(w, moves);
    var v := Run(w, moves);
    assert ThreadInv(v.shared, j, v.threads[j]);
    i := j;
    if !CanMove(v, j) {
      i := Unblocks(v, j);
    }
  }

  lemma Unblocks(v: World, j: nat) returns (i: nat)
    requires Inv(v) && j < |v.threads| && !Ended(v.threads[j]) && !CanMove(v, j)
    ensures CanMove(v, i)
  {
    assert ThreadInv(v.shared, j, v.threads[j]);
    var t := v.threads[j];
    if t.Cleanup? || (t.Shutdown? && t.shutdown.ShutdownWait?) {
      i := EraserMoves(v);
    } else {
      i := if t.Command? then v.shared.writer.value else v.shared.mutex.value;
      assert ThreadInv(v.shared, i, v.threads[i]);
      HolderMoves(v, i);
    }
  }

  // The lifecycle object itself; each method runs while its caller holds the transition mutex.

  class PanicLifecycle {
    var life: Life
    var version: nat

    constructor ()
      ensures life == Active && version == 0
    {
      life, version := Active, 0;
    }

    method Begin() returns (won: bool)
      modifies this`life
      ensures life == AfterBegin(old(life))
      ensures won <==> old(life) == Active
    {
      won := life == Active;
      if won { life := Erasing; }
    }

    method BeginProcessShutdown() returns (wait: bool)
      modifies this`life
      ensures life == AfterShutdown(old(life))
      ensures wait <==> life == Erasing
      ensures !wait ==> Halted(life)
    {
      match life
      case Active =>
        life := Stopping;
        wait := false;
      case Erasing => wait := true;
      case _ => wait := false;
    }

    method Finish(erased: bool)
      modifies this
      ensures life == AfterFinish(erased) && Terminal(life) && version == old(version) + 1
    {
      life := if erased then CleanupComplete else CleanupFailed;
      version := version + 1;
    }
  }
}
