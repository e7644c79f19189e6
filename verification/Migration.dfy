/**
Moving a sealed store to another key provider: a replacement tree is filled beside the
old one, two renames swap them, and only then are the old key and tree destroyed. The
process may stop between any two steps. Losing power makes the parent directory fall back to
any version since its last flush, and takes the records of the replacement with it as long as
the entry of their directory, which nobody flushes, has not been written back.
*/
module Migration {
  import opened Common

  datatype Provider = SecretService | File

  /** A record sealed under a master key. */
  datatype Sealed = Sealed(key: nat, plaintext: Bytes)

  /** A state directory: the provider marker, the key file if there is one, the records. */
  datatype Tree = Tree(provider: Provider, fileKey: Option<nat>, records: map<string, Sealed>)

  datatype Parent = Parent(state: Option<Tree>, replacement: Option<Tree>, backup: Option<Tree>)

  datatype Phase =
    | OpenReplacement
    | Copy(done: nat)
    | SwapOut
    | SwapIn
    | FlushParent
    | DeleteKey
    | RemoveBackup
    | FlushRemoval
    | UndoCopy
    | PutBack
    | Ended(migrated: bool)

  /**
  `names` lists the records that were read; `vault` is the key in the Secret Service; `linked`
  says that the records directory of the replacement has reached the disk.
  */
  datatype World = World(
    names: seq<string>, target: Provider, versions: seq<Parent>, vault: Option<nat>, linked: bool, phase: Phase)

  /**
  What the system does in a step: whether the call succeeds, the fresh key, what an
  interrupted removal leaves, and whether deleting the vault key works.
  */
  datatype Choice = Choice(ok: bool, key: nat, rest: Option<Tree>, keyDeleted: bool)

  datatype Move = Act(choice: Choice) | Writeback | StopProcess | LosePower(version: nat)

  predicate Init(w: World, source: Tree) {
    && w.versions == [Parent(Some(source), None, None)] && w.phase == OpenReplacement && w.linked
    && Enumerates(w.names, source.records.Keys) && w.target != source.provider
    && Holds(Some(source), source, w.vault)
  }

  function KeyOf(tree: Tree, vault: Option<nat>): Option<nat> {
    if tree.provider == File then tree.fileKey else vault
  }

  /** The tree has a usable key, and under it every record of the source. */
  predicate Holds(tree: Option<Tree>, source: Tree, vault: Option<nat>) {
    && tree.Some? && KeyOf(tree.value, vault).Some?
    && (forall name | name in source.records ::
          name in tree.value.records
          && tree.value.records[name] == Sealed(KeyOf(tree.value, vault).value, source.records[name].plaintext))
  }

  function Current(w: World): Parent
    requires w.versions != []
  {
    w.versions[|w.versions| - 1]
  }

  /** Part of a tree, as an interrupted removal leaves it. */
  predicate Part(rest: Tree, tree: Tree) {
    && rest.provider == tree.provider && (rest.fileKey == tree.fileKey || rest.fileKey == None)
    && forall name | name in rest.records :: name in tree.records && rest.records[name] == tree.records[name]
  }

  function Left(tree: Option<Tree>, rest: Option<Tree>): Option<Tree> {
    if tree.Some? && rest.Some? && Part(rest.value, tree.value) then rest else None
  }

  /** What a power loss leaves of a tree: an unlinked records directory is gone. */
  function Torn(tree: Option<Tree>, target: Provider): Option<Tree> {
    if tree.Some? && tree.value.provider == target then Some(tree.value.(records := map[])) else tree
  }

  function Fallen(p: Parent, target: Provider, linked: bool): Parent {
    if linked then p else Parent(Torn(p.state, target), Torn(p.replacement, target), Torn(p.backup, target))
  }

  function Enter(w: World, p: Parent): World { w.(versions := w.versions + [p]) }

  /** A new tree for the target; the Secret Service keeps a key it already has. */
  function NewTree(target: Provider, key: nat): Tree {
    Tree(target, if target == File then Some(key) else None, map[])
  }

  function Fresh(w: World, c: Choice): World
    requires w.versions != []
  {
    var key := if w.target == SecretService && w.vault.Some? then w.vault.value else c.key;
    Enter(w, Current(w).(replacement := Some(NewTree(w.target, key))))
      .(vault := if w.target == SecretService then Some(key) else w.vault, linked := false, phase := Copy(0))
  }

  function CopyOne(w: World, i: nat): World
    requires w.versions != []
  {
    var p := Current(w);
    if p.state.None? || p.replacement.None? || i >= |w.names| || w.names[i] !in p.state.value.records
       || KeyOf(p.replacement.value, w.vault).None? then w
    else
      var tree, name := p.replacement.value, w.names[i];
      var sealed := Sealed(KeyOf(tree, w.vault).value, p.state.value.records[name].plaintext);
      Enter(w, p.(replacement := Some(tree.(records := tree.records[name := sealed])))).(phase := Copy(i + 1))
  }

  function Act(w: World, source: Provider, c: Choice): World
    requires w.versions != []
  {
    var p := Current(w);
    match w.phase
    case OpenReplacement =>
      if c.ok then Fresh(w, c)
      else Enter(w, p.(replacement := Left(Some(NewTree(w.target, c.key)), c.rest)))
             .(vault := if w.target == SecretService && w.vault.None? && !c.keyDeleted then Some(c.key) else w.vault,
               linked := false, phase := Ended(false))
    case Copy(done) =>
      if done >= |w.names| then w.(phase := SwapOut)
      else if c.ok then CopyOne(w, done)
      else w.(phase := UndoCopy)
    case UndoCopy =>
      Enter(w, p.(replacement := Left(p.replacement, c.rest)))
        .(vault := if w.target == SecretService && c.keyDeleted then None else w.vault, phase := Ended(false))
    case SwapOut =>
      if c.ok then Enter(w, p.(state := None, backup := p.state)).(phase := SwapIn) else w.(phase := Ended(false))
    case SwapIn =>
      if c.ok then Enter(w, p.(state := p.replacement, replacement := None)).(phase := FlushParent)
      else w.(phase := PutBack)
    case PutBack =>
      (if c.ok then Enter(w, p.(state := p.backup, backup := None)) else w)
        .(vault := if w.target == SecretService && c.keyDeleted then None else w.vault, phase := Ended(false))
    case FlushParent =>
      if c.ok then w.(versions := [p], phase := DeleteKey) else w.(phase := Ended(false))
    case DeleteKey =>
      if source != SecretService then w.(phase := RemoveBackup)
      else if c.keyDeleted then w.(vault := None, phase := RemoveBackup)
      else w.(phase := Ended(false))
    case RemoveBackup =>
      Enter(w, p.(backup := if c.ok then None else Left(p.backup, c.rest)))
        .(phase := if c.ok then FlushRemoval else Ended(false))
    case FlushRemoval =>
      if c.ok then w.(versions := [p], phase := Ended(true)) else w.(phase := Ended(false))
    case Ended(_) => w
  }

  function Step(w: World, source: Provider, m: Move): World
    requires w.versions != []
  {
    match m
    case Act(c) => Act(w, source, c)
    case Writeback => w.(linked := true)
    case StopProcess => if w.phase.Ended? then w else w.(phase := Ended(false))
    case LosePower(k) =>
      if k >= |w.versions| then w
      else w.(versions := [Fallen(w.versions[k], w.target, w.linked)], linked := true, phase := Ended(false))
  }

  function Run(w: World, source: Provider, moves: seq<Move>): (r: World)
    requires w.versions != []
    ensures r.versions != []
    decreases |moves|
  {
    if moves == [] then w
    else Step(Run(w, source, moves[..|moves| - 1]), source, moves[|moves| - 1])
  }

  // What every step keeps.

  predicate Safe(p: Parent, source: Tree, vault: Option<nat>) {
    Holds(p.state, source, vault) || Holds(p.backup, source, vault) || Holds(p.replacement, source, vault)
  }

  /** Until the flush some place still has the source, and its key is there. */
  predicate Early(w: World, source: Tree) {
    && w.versions != [] && Holds(Some(source), source, w.vault)
    && forall k | 0 <= k < |w.versions| ::
         w.versions[k].state == Some(source) || w.versions[k].backup == Some(source)
  }

  /** The replacement holds the records copied so far. */
  predicate Copied(w: World, tree: Option<Tree>, source: Tree, n: nat) {
    && n <= |w.names| && tree.Some? && tree.value.provider == w.target && KeyOf(tree.value, w.vault).Some?
    && forall i | 0 <= i < n && w.names[i] in source.records ::
         w.names[i] in tree.value.records
         && tree.value.records[w.names[i]]
            == Sealed(KeyOf(tree.value, w.vault).value, source.records[w.names[i]].plaintext)
  }

  predicate PhaseInv(w: World, source: Tree)
    requires w.versions != []
  {
    var p := Current(w);
    match w.phase
    case OpenReplacement => Early(w, source) && p.state == Some(source)
    case Copy(done) => Early(w, source) && p.state == Some(source) && Copied(w, p.replacement, source, done)
    case SwapOut => Early(w, source) && p.state == Some(source) && Copied(w, p.replacement, source, |w.names|)
    case SwapIn => Early(w, source) && p.backup == Some(source) && Copied(w, p.replacement, source, |w.names|)
    case FlushParent => Early(w, source) && Copied(w, p.state, source, |w.names|)
    case DeleteKey => Early(w, source) && w.versions == [p] && Copied(w, p.state, source, |w.names|)
    case RemoveBackup => w.versions == [p] && Copied(w, p.state, source, |w.names|)
    case UndoCopy => Early(w, source)
    case PutBack => Early(w, source) && p.backup == Some(source)
    case FlushRemoval => Copied(w, p.state, source, |w.names|) && p.backup == None
    case Ended(migrated) => migrated ==> w.versions == [p] && Copied(w, p.state, source, |w.names|) && p.backup == None
  }

  predicate Inv(w: World, source: Tree) {
    && w.versions != [] && Enumerates(w.names, source.records.Keys) && w.target != source.provider
    && (forall k | 0 <= k < |w.versions| :: Safe(w.versions[k], source, w.vault) && Origins(w.versions[k], source, w.target))
    && PhaseInv(w, source)
  }

  /** A tree is of the target provider, or what is left of the source. */
  predicate Origin(tree: Option<Tree>, source: Tree, target: Provider) {
    tree.Some? ==> tree.value.provider == target || Part(tree.value, source)
  }

  predicate Origins(p: Parent, source: Tree, target: Provider) {
    && Origin(p.state, source, target) && Origin(p.backup, source, target)
    && (p.replacement.Some? ==> p.replacement.value.provider == target)
  }

  /** The source's records are all in the tree, and the key they were sealed under is at hand. */
  predicate Untouched(tree: Option<Tree>, source: Tree, key: Option<nat>, vault: Option<nat>) {
    && tree.Some? && tree.value.provider == source.provider && tree.value.records == source.records
    && key.Some? && KeyOf(tree.value, vault) == key
  }

  predicate Kept(p: Parent, source: Tree, key: Option<nat>, vault: Option<nat>) {
    Untouched(p.state, source, key, vault) || Untouched(p.backup, source, key, vault)
  }

  /** A power loss that finds the copy linked, or the source still there, or nothing to lose. */
  predicate SparedStep(w: World, source: Tree, key: Option<nat>, m: Move) {
    m.LosePower? && m.version < |w.versions| ==>
      w.linked || source.records == map[] || Kept(w.versions[m.version], source, key, w.vault)
  }

  predicate Spared(w: World, source: Tree, moves: seq<Move>)
    requires w.versions != []
    decreases |moves|
  {
    moves == []
    || (&& Spared(w, source, moves[..|moves| - 1])
        && SparedStep(Run(w, source.provider, moves[..|moves| - 1]), source, KeyOf(source, w.vault), moves[|moves| - 1]))
  }

  /** The source as it was read: its records are sealed under this key. */
  predicate Original(source: Tree, key: Option<nat>) {
    key.Some? && forall name | name in source.records :: source.records[name].key == key.value
  }

  lemma TornHolds(tree: Option<Tree>, source: Tree, target: Provider, key: Option<nat>, vault: Option<nat>)
    requires Origin(tree, source, target) && target != source.provider && Original(source, key)
    ensures source.records != map[] ==> (Holds(Torn(tree, target), source, vault) <==> Untouched(tree, source, key, vault))
    ensures source.records == map[] ==> (Holds(Torn(tree, target), source, vault) <==> Holds(tree, source, vault))
  {
    if source.records != map[] {
      var name :| name in source.records;
      if tree.Some? && tree.value.provider != target && Holds(tree, source, vault) {
        assert tree.value.records == source.records;
        assert source.records[name] == Sealed(KeyOf(tree.value, vault).value, source.records[name].plaintext);
      }
    }
  }

  /** Without the link, a version that power falls back to is safe exactly when the source is kept in it. */
  lemma FallenSafeIff(p: Parent, source: Tree, target: Provider, key: Option<nat>, vault: Option<nat>)
    requires Origins(p, source, target) && target != source.provider && Original(source, key) && Safe(p, source, vault)
    ensures Safe(Fallen(p, target, false), source, vault) <==> source.records == map[] || Kept(p, source, key, vault)
  {
    TornHolds(p.state, source, target, key, vault);
    TornHolds(p.backup, source, target, key, vault);
    TornHolds(p.replacement, source, target, key, vault);
  }

  lemma FallenOrigins(p: Parent, source: Tree, target: Provider, linked: bool)
    requires Origins(p, source, target)
    ensures Origins(Fallen(p, target, linked), source, target)
  {
  }

  lemma LossKeeps(w: World, source: Tree, key: Option<nat>, k: nat)
    requires Inv(w, source) && Original(source, key) && SparedStep(w, source, key, LosePower(k))
    ensures Inv(Step(w, source.provider, LosePower(k)), source)
  {
    if k < |w.versions| {
      FallenSafeIff(w.versions[k], source, w.target, key, w.vault);
      FallenOrigins(w.versions[k], source, w.target, w.linked);
    }
  }

  lemma EarlySafe(w: World, source: Tree)
    requires Early(w, source)
    ensures forall k | 0 <= k < |w.versions| :: Safe(w.versions[k], source, w.vault)
  {
  }

  /** A complete copy is as good as the source. */
  lemma CopiedHolds(w: World, tree: Option<Tree>, source: Tree)
    requires Enumerates(w.names, source.records.Keys) && Copied(w, tree, source, |w.names|)
    ensures Holds(tree, source, w.vault)
  {
    forall name | name in source.records
      ensures name in tree.value.records
           && tree.value.records[name] == Sealed(KeyOf(tree.value, w.vault).value, source.records[name].plaintext)
    {
      assert name in source.records.Keys;
      var i :| 0 <= i < |w.names| && w.names[i] == name;
    }
  }

  lemma OpenKeeps(w: World, source: Tree, c: Choice)
    requires Inv(w, source) && w.phase == OpenReplacement
    ensures Inv(Act(w, source.provider, c), source)
  {
    EarlySafe(Act(w, source.provider, c), source);
  }

  lemma CopyKeeps(w: World, source: Tree, c: Choice)
    requires Inv(w, source) && w.phase.Copy?
    ensures Inv(Act(w, source.provider, c), source)
  {
    var v := Act(w, source.provider, c);
    if c.ok && w.phase.done < |w.names| {
      assert w.names[w.phase.done] in w.names;
      assert Copied(v, Current(v).replacement, source, w.phase.done + 1);
    }
    EarlySafe(v, source);
  }

  lemma SwapKeeps(w: World, source: Tree, c: Choice)
    requires Inv(w, source) && (w.phase == SwapOut || w.phase == SwapIn || w.phase == PutBack || w.phase == UndoCopy)
    ensures Inv(Act(w, source.provider, c), source)
  {
    EarlySafe(Act(w, source.provider, c), source);
  }

  lemma FlushKeeps(w: World, source: Tree, c: Choice)
    requires Inv(w, source) && w.phase == FlushParent
    ensures Inv(Act(w, source.provider, c), source)
  {
    CopiedHolds(w, Current(w).state, source);
  }

  lemma DestroyKeeps(w: World, source: Tree, c: Choice)
    requires Inv(w, source) && (w.phase == DeleteKey || w.phase == RemoveBackup)
    ensures Inv(Act(w, source.provider, c), source)
  {
    var v := Act(w, source.provider, c);
    CopiedHolds(w, Current(w).state, source);
    CopiedHolds(v, Current(v).state, source);
  }

  lemma ActKeeps(w: World, source: Tree, c: Choice)
    requires Inv(w, source)
    ensures Inv(Act(w, source.provider, c), source)
  {
    match w.phase
    case OpenReplacement => OpenKeeps(w, source, c);
    case Copy(done) => CopyKeeps(w, source, c);
    case SwapOut => SwapKeeps(w, source, c);
    case SwapIn => SwapKeeps(w, source, c);
    case PutBack => SwapKeeps(w, source, c);
    case UndoCopy => SwapKeeps(w, source, c);
    case FlushParent => FlushKeeps(w, source, c);
    case DeleteKey => DestroyKeeps(w, source, c);
    case RemoveBackup => DestroyKeeps(w, source, c);
    case FlushRemoval =>
    case Ended(_) =>
  }

  lemma StepKeeps(w: World, source: Tree, key: Option<nat>, m: Move)
    requires Inv(w, source) && Original(source, key) && SparedStep(w, source, key, m)
    ensures Inv(Step(w, source.provider, m), source)
  {
    if m.Act? { ActKeeps(w, source, m.choice); }
    if m.LosePower? { LossKeeps(w, source, key, m.version); }
  }

  lemma {:induction false} RunKeeps(w: World, source: Tree, moves: seq<Move>)
    requires Init(w, source) && Spared(w, source, moves)
    ensures Inv(Run(w, source.provider, moves), source)
    decreases |moves|
  {
    if moves == [] {
      EarlySafe(w, source);
    } else {
      RunKeeps(w, source, moves[..|moves| - 1]);
      StepKeeps(Run(w, source.provider, moves[..|moves| - 1]), source, KeyOf(source, w.vault), moves[|moves| - 1]);
    }
  }

  /**
  At every point of every migration, in every version the parent may fall back to, one of the
  three trees holds all records under a key that is there; and a migration that reports success
  leaves them in the state directory, under the target provider, with no backup, all flushed. Power losses so
  far must have spared the records; `LossIff` says which do.
  */
  lemma RecordsSurvive(w: World, source: Tree, moves: seq<Move>)
    requires Init(w, source) && Spared(w, source, moves)
    ensures var v := Run(w, source.provider, moves);
            && (forall k | 0 <= k < |v.versions| :: Safe(v.versions[k], source, v.vault))
            && (v.phase == Ended(true) ==>
                  && Holds(Current(v).state, source, v.vault) && Current(v).state.value.provider == w.target
                  && Current(v).backup == None && |v.versions| == 1)
  {
    RunKeeps(w, source, moves);
    RunFixed(w, source.provider, moves);
    var v := Run(w, source.provider, moves);
    if v.phase == Ended(true) { CopiedHolds(v, Current(v).state, source); }
  }

  /**
  A power loss at any point of any migration leaves the records readable if and only if the
  records directory of the copy had reached the disk, or the source is still kept in the version
  that is left, or there were no records.
  */
  lemma LossIff(w: World, source: Tree, moves: seq<Move>, k: nat)
    requires Init(w, source) && Spared(w, source, moves) && k < |Run(w, source.provider, moves).versions|
    ensures var v := Run(w, source.provider, moves);
            Safe(Current(Step(v, source.provider, LosePower(k))), source, v.vault)
            <==> v.linked || source.records == map[] || Kept(v.versions[k], source, KeyOf(source, w.vault), v.vault)
  {
    RunKeeps(w, source, moves);
    var v := Run(w, source.provider, moves);
    FallenSafeIff(v.versions[k], source, v.target, KeyOf(source, w.vault), v.vault);
  }

  predicate Destroying(phase: Phase) { phase == RemoveBackup || phase == FlushRemoval || phase.Ended? }

  lemma EarlyKept(w: World, source: Tree, key: Option<nat>, k: nat)
    requires Early(w, source) && Original(source, key) && source.records != map[] && k < |w.versions|
    ensures Kept(w.versions[k], source, key, w.vault)
  {
    var name :| name in source.records;
    assert source.records[name] == Sealed(KeyOf(source, w.vault).value, source.records[name].plaintext);
  }

  /** Until the old key is deleted no power loss costs a record. */
  lemma LossBeforeDestruction(w: World, source: Tree, moves: seq<Move>, k: nat)
    requires Init(w, source) && Spared(w, source, moves) && k < |Run(w, source.provider, moves).versions|
    requires !Destroying(Run(w, source.provider, moves).phase)
    ensures var v := Run(w, source.provider, moves);
            Safe(Current(Step(v, source.provider, LosePower(k))), source, v.vault)
  {
    LossIff(w, source, moves, k);
    RunKeeps(w, source, moves);
    if source.records != map[] { EarlyKept(Run(w, source.provider, moves), source, KeyOf(source, w.vault), k); }
  }

  lemma StepFixed(w: World, source: Provider, m: Move)
    requires w.versions != []
    ensures Step(w, source, m).target == w.target && Step(w, source, m).names == w.names
  {
  }

  lemma {:induction false} RunFixed(w: World, source: Provider, moves: seq<Move>)
    requires w.versions != []
    ensures Run(w, source, moves).target == w.target && Run(w, source, moves).names == w.names
    decreases |moves|
  {
    if moves != [] {
      RunFixed(w, source, moves[..|moves| - 1]);
      StepFixed(Run(w, source, moves[..|moves| - 1]), source, moves[|moves| - 1]);
    }
  }

  // The loss that does cost records.

  const RECORD: Sealed := Sealed(1, [7])
  const SOURCE: Tree := Tree(SecretService, None, map["a" := RECORD])
  const START: World := World(["a"], File, [Parent(Some(SOURCE), None, None)], Some(1), true, OpenReplacement)
  const WORKS: Choice := Choice(true, 2, None, true)

  /** A migration from the Secret Service to a key file, all steps of which succeed. */
  const SMOOTH: seq<Move> := seq(9, _ => Move.Act(WORKS))

  lemma NextRun(w: World, source: Provider, moves: seq<Move>, n: nat)
    requires w.versions != [] && n < |moves|
    ensures Run(w, source, moves[..n + 1]) == Step(Run(w, source, moves[..n]), source, moves[n])
  {
    assert moves[..n + 1][..n] == moves[..n];
  }

  const COPY: Tree := Tree(File, Some(2), map["a" := Sealed(2, [7])])

  predicate At(w: World, vault: Option<nat>, phase: Phase, p: Parent) {
    && w.versions != [] && Current(w) == p && w.vault == vault && w.phase == phase
    && w.names == ["a"] && w.target == File && !w.linked
  }

  /** Where the smooth migration stands after so many steps. */
  predicate Station(w: World, n: nat) {
    if n <= 1 then At(w, Some(1), Copy(0), Parent(Some(SOURCE), Some(NewTree(File, 2)), None))
    else if n == 2 then At(w, Some(1), Copy(1), Parent(Some(SOURCE), Some(COPY), None))
    else if n == 3 then At(w, Some(1), SwapOut, Parent(Some(SOURCE), Some(COPY), None))
    else if n == 4 then At(w, Some(1), SwapIn, Parent(None, Some(COPY), Some(SOURCE)))
    else if n == 5 then At(w, Some(1), FlushParent, Parent(Some(COPY), None, Some(SOURCE)))
    else if n == 6 then At(w, Some(1), DeleteKey, Parent(Some(COPY), None, Some(SOURCE))) && |w.versions| == 1
    else if n == 7 then At(w, None, RemoveBackup, Parent(Some(COPY), None, Some(SOURCE))) && |w.versions| == 1
    else if n == 8 then At(w, None, FlushRemoval, Parent(Some(COPY), None, None)) && |w.versions| == 2
    else At(w, None, Ended(true), Parent(Some(COPY), None, None)) && |w.versions| == 1
  }

  lemma NextStation(w: World, n: nat)
    requires Station(w, n) && 1 <= n < 9
    ensures Station(Step(w, SecretService, Move.Act(WORKS)), n + 1)
  {
  }

  lemma {:induction false} Stations(n: nat)
    requires 1 <= n <= 9
    ensures Station(Run(START, SecretService, SMOOTH[..n]), n)
  {
    NextRun(START, SecretService, SMOOTH, n - 1);
    if n == 1 {
      assert SMOOTH[..0] == [];
    } else {
      Stations(n - 1);
      NextStation(Run(START, SecretService, SMOOTH[..n - 1]), n - 1);
    }
  }

  lemma CopyTorn(w: World)
    requires Station(w, 9)
    ensures !Safe(Current(Step(w, SecretService, LosePower(0))), SOURCE, w.vault)
  {
    assert "a" in SOURCE.records;
  }

  /** It reports success and has removed the source, and the next power loss takes every record. */
  lemma RecordsLost()
    ensures Init(START, SOURCE) && Spared(START, SOURCE, SMOOTH)
    ensures var v := Run(START, SecretService, SMOOTH);
            && v.phase == Ended(true) && |v.versions| == 1
            && !Safe(Current(Step(v, SecretService, LosePower(0))), SOURCE, v.vault)
  {
    Stations(9);
    assert SMOOTH[..9] == SMOOTH;
    CopyTorn(Run(START, SecretService, SMOOTH));
    NoLossSpared(START, SOURCE, SMOOTH);
  }

  lemma {:induction false} NoLossSpared(w: World, source: Tree, moves: seq<Move>)
    requires w.versions != [] && forall i | 0 <= i < |moves| :: !moves[i].LosePower?
    ensures Spared(w, source, moves)
    decreases |moves|
  {
    if moves != [] { NoLossSpared(w, source, moves[..|moves| - 1]); }
  }
}
