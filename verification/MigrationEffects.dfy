/**
Where a migration leaves things when only the process, and not the power, may fail: at every
point the three trees are in one of four arrangements, and each way out leads to a known one.
*/
module MigrationEffects {
  import opened Common
  import opened Migration

  /** Nothing has been swapped: the source is in place. */
  predicate InPlace(p: Parent, source: Tree) { p.state == Some(source) && p.backup == None }

  /** Between the renames there is no state directory, and the backup is the source. */
  predicate Between(p: Parent, source: Tree) { p.state == None && p.backup == Some(source) }

  /** The full copy is in place and no replacement is left beside it. */
  predicate Swapped(w: World, p: Parent, source: Tree) {
    Copied(w, p.state, source, |w.names|) && p.replacement == None
  }

  /** Which arrangement belongs to which phase. */
  predicate Arranged(w: World, source: Tree)
    requires w.versions != []
  {
    var p := Current(w);
    match w.phase
    case OpenReplacement => InPlace(p, source) && p.replacement == None
    case Copy(_) => InPlace(p, source)
    case SwapOut => InPlace(p, source)
    case UndoCopy => InPlace(p, source)
    case SwapIn => Between(p, source)
    case PutBack => Between(p, source)
    case FlushParent => Swapped(w, p, source) && p.backup == Some(source)
    case DeleteKey => Swapped(w, p, source) && p.backup == Some(source)
    case RemoveBackup => Swapped(w, p, source) && p.backup == Some(source)
    case FlushRemoval => Swapped(w, p, source) && p.backup == None
    case Ended(true) => Swapped(w, p, source) && p.backup == None
    case Ended(false) => InPlace(p, source) || Between(p, source) || Swapped(w, p, source)
  }

  lemma CopyArranged(w: World, source: Tree, c: Choice)
    requires Inv(w, source) && Arranged(w, source)
    requires w.phase.OpenReplacement? || w.phase.Copy? || w.phase.UndoCopy?
    ensures Arranged(Step(w, source.provider, Move.Act(c)), source)
  {
  }

  lemma SwapArranged(w: World, source: Tree, c: Choice)
    requires Inv(w, source) && Arranged(w, source)
    requires w.phase.SwapOut? || w.phase.SwapIn? || w.phase.PutBack?
    ensures Arranged(Step(w, source.provider, Move.Act(c)), source)
  {
  }

  lemma RemovalArranged(w: World, source: Tree, c: Choice)
    requires Inv(w, source) && Arranged(w, source)
    requires w.phase.FlushParent? || w.phase.DeleteKey? || w.phase.RemoveBackup? || w.phase.FlushRemoval? || w.phase.Ended?
    ensures Arranged(Step(w, source.provider, Move.Act(c)), source)
  {
  }

  lemma StopArranged(w: World, source: Tree, m: Move)
    requires Inv(w, source) && Arranged(w, source) && (m.StopProcess? || m.Writeback?)
    ensures Arranged(Step(w, source.provider, m), source)
  {
  }

  predicate Powered(moves: seq<Move>) { forall i | 0 <= i < |moves| :: !moves[i].LosePower? }

  /** Through any steps, failures and stops the trees are arranged as the phase says; a failed migration left one whole tree. */
  lemma {:induction false} TreesAreArranged(w: World, source: Tree, moves: seq<Move>)
    requires Init(w, source) && Powered(moves)
    ensures Arranged(Run(w, source.provider, moves), source)
    decreases |moves|
  {
    if moves != [] {
      var front, last := moves[..|moves| - 1], moves[|moves| - 1];
      TreesAreArranged(w, source, front);
      NoLossSpared(w, source, front);
      RunKeeps(w, source, front);
      var v := Run(w, source.provider, front);
      if last.Act? {
        if v.phase.OpenReplacement? || v.phase.Copy? || v.phase.UndoCopy? { CopyArranged(v, source, last.choice); }
        else if v.phase.SwapOut? || v.phase.SwapIn? || v.phase.PutBack? { SwapArranged(v, source, last.choice); }
        else { RemovalArranged(v, source, last.choice); }
      } else {
        StopArranged(v, source, last);
      }
    }
  }

  lemma AfterOne(w: World, source: Provider, moves: seq<Move>, m: Move)
    requires w.versions != []
    ensures Run(w, source, moves + [m]) == Step(Run(w, source, moves), source, m)
  {
    assert (moves + [m])[..|moves|] == moves;
  }

  /** Undoing a copy leaves the source in place and, when the removal works, nothing beside it. */
  lemma UndoneIsGone(w: World, source: Tree, moves: seq<Move>, c: Choice)
    requires Init(w, source) && Powered(moves) && Run(w, source.provider, moves).phase == UndoCopy
    ensures var v := Run(w, source.provider, moves + [Move.Act(c)]);
            && v.phase == Ended(false) && InPlace(Current(v), source)
            && (c.rest.None? ==> Current(v).replacement == None)
            && (w.target == SecretService && c.keyDeleted ==> v.vault == None)
  {
    TreesAreArranged(w, source, moves);
    RunFixed(w, source.provider, moves);
    AfterOne(w, source.provider, moves, Move.Act(c));
  }

  /** A second rename that fails is made good by putting the source back, if that works. */
  lemma PutBackRestores(w: World, source: Tree, moves: seq<Move>, c: Choice)
    requires Init(w, source) && Powered(moves) && Run(w, source.provider, moves).phase == PutBack
    ensures var v := Run(w, source.provider, moves + [Move.Act(c)]);
            v.phase == Ended(false) && if c.ok then InPlace(Current(v), source) else Between(Current(v), source)
  {
    TreesAreArranged(w, source, moves);
    AfterOne(w, source.provider, moves, Move.Act(c));
  }

  predicate PastDeletion(w: World) { w.phase.RemoveBackup? || w.phase.FlushRemoval? || w.phase == Ended(true) }

  /** The backup is only removed, and success only reported, once the old key is gone from the Secret Service. */
  lemma {:induction false} OldKeyIsGone(w: World, source: Tree, moves: seq<Move>)
    requires Init(w, source) && source.provider == SecretService
    ensures PastDeletion(Run(w, SecretService, moves)) ==> Run(w, SecretService, moves).vault == None
    decreases |moves|
  {
    if moves != [] {
      OldKeyIsGone(w, source, moves[..|moves| - 1]);
      RunFixed(w, SecretService, moves[..|moves| - 1]);
    }
  }
}
