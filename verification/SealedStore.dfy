/**
The sealed store's record directory: temporary file, flush, rename, directory flush,
and the sweep of temporaries when a store is opened. A process may stop and the
machine may lose power between any two steps. After power loss the directory is any
version since its last flush, and unflushed files hold anything.
*/
module SealedStore {
  import opened Common

  // Names.

  predicate NameChar(c: char) {
    'a' <= c <= 'z' || 'A' <= c <= 'Z' || '0' <= c <= '9' || c == '-' || c == '_' || c == '.'
  }

  /** `validate_record_name`. */
  predicate IsRecord(name: string) {
    0 < |name| <= 128 && name[0] != '.' && forall i | 0 <= i < |name| :: NameChar(name[i])
  }

  predicate ContainsAt(s: string, part: string, i: nat) { i + |part| <= |s| && s[i..i + |part|] == part }

  predicate Contains(s: string, part: string) { exists i: nat | i <= |s| :: ContainsAt(s, part, i) }

  /** The names that recovery removes. */
  predicate IsTemporary(name: string) { name != "" && name[0] == '.' && Contains(name, ".tmp-") }

  function Temporary(name: string, suffix: string): string { "." + name + ".tmp-" + suffix }

  lemma TemporaryIsSwept(name: string, suffix: string)
    ensures IsTemporary(Temporary(name, suffix)) && !IsRecord(Temporary(name, suffix))
  {
    var s, i := Temporary(name, suffix), 1 + |name|;
    assert s[i..i + 5] == ".tmp-";
    assert ContainsAt(s, ".tmp-", i);
  }

  // The directory.

  datatype Inode = Inode(data: Bytes, flushed: bool)

  type Directory = map<string, nat>

  /** A write in progress: the record, its whole envelope, its temporary file and inode. */
  datatype Write = Write(name: string, data: Bytes, temporary: string, inode: nat, phase: Phase)

  datatype Phase = Creating | Writing | Flushed | Renamed | Failing

  /**
  `versions` are the directory's contents since its last flush, the current one last:
  after power loss it is any of them, and after a flush there is one.
  */
  datatype Disk = Disk(inodes: seq<Inode>, versions: seq<Directory>, writing: Option<Write>)

  datatype Move =
    | Begin(name: string, data: Bytes, suffix: string)
    | Create
    | Append(count: nat)
    | Flush
    | Rename
    | FlushDirectory
    | Fail
    | Discard(removed: bool)
    | Remove(name: string)
    | Sweep(name: string)
    | StopProcess
    | LosePower(version: nat, garbage: seq<Bytes>)

  function Current(d: Disk): Directory
    requires d.versions != []
  {
    d.versions[|d.versions| - 1]
  }

  function Enter(d: Disk, directory: Directory): Disk { d.(versions := d.versions + [directory]) }

  function SetPhase(d: Disk, phase: Phase): Disk
    requires d.writing.Some?
  {
    d.(writing := Some(d.writing.value.(phase := phase)))
  }

  /** One inode after power loss: flushed data stay, anything else may be garbage. */
  function Surviving(inode: Inode, garbage: Bytes): Inode {
    if inode.flushed then inode else Inode(garbage, true)
  }

  function StepWrite(d: Disk, w: Write, m: Move): Disk
    requires d.versions != [] && d.writing == Some(w)
  {
    match (w.phase, m)
    case (Creating, Create) =>
      if w.temporary in Current(d) then SetPhase(d, Failing)
      else
        var id := |d.inodes|;
        Enter(d, Current(d)[w.temporary := id])
          .(inodes := d.inodes + [Inode([], false)], writing := Some(w.(inode := id, phase := Writing)))
    case (Writing, Append(count)) =>
      if w.inode < |d.inodes| && count <= |w.data|
      then d.(inodes := d.inodes[w.inode := Inode(w.data[..count], false)])
      else d
    case (Writing, Flush) =>
      if w.inode < |d.inodes| && d.inodes[w.inode].data == w.data
      then SetPhase(d.(inodes := d.inodes[w.inode := Inode(w.data, true)]), Flushed)
      else d
    case (Flushed, Rename) =>
      Enter(SetPhase(d, Renamed), (Current(d) - {w.temporary})[w.name := w.inode])
    case (Renamed, FlushDirectory) => d.(versions := [Current(d)], writing := None)
    case (Failing, Discard(removed)) =>
      (if removed then Enter(d, Current(d) - {w.temporary}) else d).(writing := None)
    case (_, Fail) => SetPhase(d, Failing)
    case _ => d
  }

  /** Deletion, and the sweep when the store is opened; no write is in progress. */
  function StepIdle(d: Disk, m: Move): Disk
    requires d.versions != []
  {
    match m
    case Begin(name, data, suffix) =>
      if IsRecord(name) then d.(writing := Some(Write(name, data, Temporary(name, suffix), 0, Creating))) else d
    case Remove(name) => if IsRecord(name) then Enter(d, Current(d) - {name}) else d
    case Sweep(name) => if IsTemporary(name) then Enter(d, Current(d) - {name}) else d
    case FlushDirectory => d.(versions := [Current(d)])
    case _ => d
  }

  function Step(d: Disk, m: Move): Disk
    requires d.versions != []
  {
    if m.StopProcess? then d.(writing := None)
    else if m.LosePower? then
      if m.version < |d.versions| && |m.garbage| == |d.inodes| then
        d.(versions := [d.versions[m.version]], writing := None,
           inodes := seq(|d.inodes|, i requires 0 <= i < |d.inodes| && i < |m.garbage| => Surviving(d.inodes[i], m.garbage[i])))
      else d
    else if d.writing.Some? then StepWrite(d, d.writing.value, m)
    else StepIdle(d, m)
  }

  function Run(d: Disk, moves: seq<Move>): (r: Disk)
    requires d.versions != []
    ensures r.versions != []
    decreases |moves|
  {
    if moves == [] then d else Step(Run(d, moves[..|moves| - 1]), moves[|moves| - 1])
  }

  // What every step keeps.

  function Value(d: Disk, directory: Directory, name: string): Option<Bytes> {
    if name in directory && directory[name] < |d.inodes| then Some(d.inodes[directory[name]].data) else None
  }

  /** In this version the record is a whole flushed envelope, or there is none. */
  predicate RecordOk(d: Disk, directory: Directory, name: string) {
    name in directory ==> directory[name] < |d.inodes| && d.inodes[directory[name]].flushed
  }

  ghost predicate VersionOk(d: Disk, directory: Directory) {
    && (forall name | IsRecord(name) :: RecordOk(d, directory, name))
    && (forall name | name in directory :: directory[name] < |d.inodes|)
  }

  /** The inode being written is named only by its temporary. */
  predicate Private(w: Write, directory: Directory) {
    w.phase == Writing || w.phase == Flushed ==>
      forall name | name in directory && directory[name] == w.inode :: !IsRecord(name)
  }

  predicate WriteOk(d: Disk, w: Write)
    requires d.versions != []
  {
    && IsRecord(w.name) && IsTemporary(w.temporary) && !IsRecord(w.temporary)
    && (w.phase == Writing || w.phase == Flushed ==>
          w.inode < |d.inodes| && forall k | 0 <= k < |d.versions| :: Private(w, d.versions[k]))
    && (w.phase == Flushed ==> d.inodes[w.inode] == Inode(w.data, true))
    && (w.phase == Renamed ==> Value(d, Current(d), w.name) == Some(w.data))
  }

  ghost predicate Inv(d: Disk) {
    && d.versions != []
    && (forall k | 0 <= k < |d.versions| :: VersionOk(d, d.versions[k]))
    && (d.writing.Some? ==> WriteOk(d, d.writing.value))
  }

  /** The record is the same in the two versions. */
  predicate SameRecord(d: Disk, before: Directory, v: Disk, after: Directory, name: string) {
    && (name in before <==> name in after)
    && (name in before ==>
          && after[name] == before[name] < |v.inodes| && before[name] < |d.inodes|
          && v.inodes[before[name]] == d.inodes[before[name]])
  }

  lemma SameVersion(d: Disk, before: Directory, v: Disk, after: Directory)
    requires VersionOk(d, before)
    requires forall name | IsRecord(name) :: SameRecord(d, before, v, after, name)
    requires forall name | name in after :: after[name] < |v.inodes|
    ensures VersionOk(v, after)
  {
    forall name | IsRecord(name) ensures RecordOk(v, after, name) {
      assert RecordOk(d, before, name);
    }
  }

  lemma CreateKeeps(d: Disk, w: Write)
    requires Inv(d) && d.writing == Some(w) && w.phase == Creating
    ensures Inv(StepWrite(d, w, Create))
  {
    var v, id := StepWrite(d, w, Create), |d.inodes|;
    if w.temporary !in Current(d) {
      forall k | 0 <= k < |v.versions|
        ensures VersionOk(v, v.versions[k]) && Private(w.(inode := id, phase := Writing), v.versions[k])
      {
        SameVersion(d, if k < |d.versions| then d.versions[k] else Current(d), v, v.versions[k]);
      }
    }
  }

  lemma AppendKeeps(d: Disk, w: Write, data: Bytes, flushed: bool)
    requires Inv(d) && d.writing == Some(w) && w.phase == Writing
    ensures var v := d.(inodes := d.inodes[w.inode := Inode(data, flushed)]); Inv(v)
  {
    var v := d.(inodes := d.inodes[w.inode := Inode(data, flushed)]);
    forall k | 0 <= k < |v.versions| ensures VersionOk(v, v.versions[k]) {
      assert Private(w, d.versions[k]);
      SameVersion(d, d.versions[k], v, v.versions[k]);
    }
  }

  lemma FlushKeeps(d: Disk, w: Write)
    requires Inv(d) && d.writing == Some(w) && w.phase == Writing
    ensures Inv(StepWrite(d, w, Flush))
  {
    AppendKeeps(d, w, w.data, true);
    var u := d.(inodes := d.inodes[w.inode := Inode(w.data, true)]);
    var v := SetPhase(u, Flushed);
    forall k | 0 <= k < |v.versions| ensures VersionOk(v, v.versions[k]) && Private(v.writing.value, v.versions[k]) {
      SameVersion(u, u.versions[k], v, v.versions[k]);
      assert Private(w, d.versions[k]);
    }
  }

  lemma RenameKeeps(d: Disk, w: Write)
    requires Inv(d) && d.writing == Some(w) && w.phase == Flushed
    ensures Inv(StepWrite(d, w, Rename))
  {
    var v := StepWrite(d, w, Rename);
    var n := |d.versions|;
    forall k | 0 <= k < n ensures VersionOk(v, v.versions[k]) {
      SameVersion(d, d.versions[k], v, v.versions[k]);
    }
    forall name | IsRecord(name) ensures RecordOk(v, v.versions[n], name) {
      if name != w.name {
        assert RecordOk(d, Current(d), name);
      }
    }
    assert VersionOk(v, v.versions[n]);
  }

  lemma CommitKeeps(d: Disk, w: Write)
    requires Inv(d) && d.writing == Some(w) && w.phase == Renamed
    ensures Inv(StepWrite(d, w, FlushDirectory))
  {
    var v := StepWrite(d, w, FlushDirectory);
    forall name | IsRecord(name) ensures RecordOk(v, Current(d), name) {
      assert RecordOk(d, Current(d), name);
    }
    assert VersionOk(v, v.versions[0]);
  }

  /** Another version that differs only in names that are no records. */
  lemma EnterKeeps(d: Disk, name: string, writing: Option<Write>)
    requires Inv(d) && !IsRecord(name)
    requires writing.None? || (d.writing.Some? && writing.value == d.writing.value.(phase := Failing))
    ensures Inv(Enter(d, Current(d) - {name}).(writing := writing)) && Inv(d.(writing := writing))
  {
    var v, u := Enter(d, Current(d) - {name}).(writing := writing), d.(writing := writing);
    forall k | 0 <= k < |v.versions| ensures VersionOk(v, v.versions[k]) {
      SameVersion(d, if k < |d.versions| then d.versions[k] else Current(d), v, v.versions[k]);
    }
    forall k | 0 <= k < |u.versions| ensures VersionOk(u, u.versions[k]) {
      SameVersion(d, d.versions[k], u, u.versions[k]);
    }
  }

  lemma StepWriteKeeps(d: Disk, w: Write, m: Move)
    requires Inv(d) && d.writing == Some(w)
    ensures Inv(StepWrite(d, w, m))
  {
    EnterKeeps(d, w.temporary, None);
    EnterKeeps(d, w.temporary, Some(w.(phase := Failing)));
    if m.Create? && w.phase == Creating { CreateKeeps(d, w); }
    else if m.Append? && w.phase == Writing && m.count <= |w.data| { AppendKeeps(d, w, w.data[..m.count], false); }
    else if m.Flush? && w.phase == Writing { FlushKeeps(d, w); }
    else if m.Rename? && w.phase == Flushed { RenameKeeps(d, w); }
    else if m.FlushDirectory? && w.phase == Renamed { CommitKeeps(d, w); }
  }

  lemma RemoveKeeps(d: Disk, name: string)
    requires Inv(d) && d.writing.None? && IsRecord(name)
    ensures Inv(StepIdle(d, Remove(name)))
  {
    var v := StepIdle(d, Remove(name));
    forall k | 0 <= k < |d.versions| ensures VersionOk(v, v.versions[k]) {
      SameVersion(d, d.versions[k], v, v.versions[k]);
    }
    forall other | IsRecord(other) ensures RecordOk(v, Current(d) - {name}, other) {
      assert RecordOk(d, Current(d), other);
    }
    assert VersionOk(v, Current(d) - {name});
  }

  lemma CollapseKeeps(d: Disk, k: nat)
    requires Inv(d) && d.writing.None? && k < |d.versions|
    ensures Inv(d.(versions := [d.versions[k]]))
  {
    var v := d.(versions := [d.versions[k]]);
    SameVersion(d, d.versions[k], v, d.versions[k]);
  }

  lemma BeginKeeps(d: Disk, m: Move)
    requires Inv(d) && d.writing.None? && m.Begin?
    ensures Inv(StepIdle(d, m))
  {
    var v := StepIdle(d, m);
    TemporaryIsSwept(m.name, m.suffix);
    forall k | 0 <= k < |v.versions| ensures VersionOk(v, v.versions[k]) {
      SameVersion(d, d.versions[k], v, v.versions[k]);
    }
  }

  lemma StepIdleKeeps(d: Disk, m: Move)
    requires Inv(d) && d.writing.None?
    ensures Inv(StepIdle(d, m))
  {
    match m
    case Begin(_, _, _) => BeginKeeps(d, m);
    case Remove(name) => if IsRecord(name) { RemoveKeeps(d, name); }
    case Sweep(name) => if IsTemporary(name) { EnterKeeps(d, name, None); }
    case FlushDirectory => CollapseKeeps(d, |d.versions| - 1);
    case _ =>
  }

  lemma PowerKeeps(d: Disk, m: Move)
    requires Inv(d) && m.LosePower? && m.version < |d.versions| && |m.garbage| == |d.inodes|
    ensures Inv(Step(d, m))
  {
    var v := Step(d, m);
    SameVersion(d, d.versions[m.version], v, v.versions[0]);
  }

  lemma StepKeeps(d: Disk, m: Move)
    requires Inv(d)
    ensures Inv(Step(d, m))
  {
    if m.StopProcess? {
      if d.writing.Some? { EnterKeeps(d, d.writing.value.temporary, None); }
    } else if m.LosePower? {
      if m.version < |d.versions| && |m.garbage| == |d.inodes| { PowerKeeps(d, m); }
    } else if d.writing.Some? {
      StepWriteKeeps(d, d.writing.value, m);
    } else {
      StepIdleKeeps(d, m);
    }
  }

  lemma {:induction false} RunKeeps(d: Disk, moves: seq<Move>)
    requires Inv(d)
    ensures Inv(Run(d, moves))
    decreases |moves|
  {
    if moves != [] {
      RunKeeps(d, moves[..|moves| - 1]);
      StepKeeps(Run(d, moves[..|moves| - 1]), moves[|moves| - 1]);
    }
  }

  // Where the values of a record come from.

  /** The record's value in some version the directory may fall back to. */
  predicate MayBe(d: Disk, name: string, value: Option<Bytes>) {
    exists k | 0 <= k < |d.versions| :: Value(d, d.versions[k], name) == value
  }

  /** The steps that put another value in place. */
  predicate Changes(d: Disk, m: Move, name: string) {
    || (m.Rename? && d.writing.Some? && d.writing.value.phase == Flushed && d.writing.value.name == name)
    || (m.Remove? && d.writing.None? && m.name == name)
  }

  lemma WriteOrigin(d: Disk, w: Write, m: Move, name: string, k: nat)
    requires Inv(d) && d.writing == Some(w) && IsRecord(name) && k < |StepWrite(d, w, m).versions|
    requires !(Changes(d, m, name) && k == |StepWrite(d, w, m).versions| - 1)
    ensures var v := StepWrite(d, w, m);
            var j := if |v.versions| < |d.versions| || k >= |d.versions| then |d.versions| - 1 else k;
            Value(v, v.versions[k], name) == Value(d, d.versions[j], name)
  {
    var v := StepWrite(d, w, m);
    var j := if |v.versions| < |d.versions| || k >= |d.versions| then |d.versions| - 1 else k;
    assert VersionOk(d, d.versions[j]);
    assert RecordOk(d, d.versions[j], name);
    if w.phase == Writing { assert Private(w, d.versions[j]); }
  }

  lemma IdleOrigin(d: Disk, m: Move, name: string, k: nat)
    requires Inv(d) && d.writing.None? && IsRecord(name) && k < |StepIdle(d, m).versions|
    requires !(Changes(d, m, name) && k == |StepIdle(d, m).versions| - 1)
    ensures var v := StepIdle(d, m);
            var j := if |v.versions| < |d.versions| || k >= |d.versions| then |d.versions| - 1 else k;
            Value(v, v.versions[k], name) == Value(d, d.versions[j], name)
  {
  }

  /** Every other value was there before; without power loss the current one comes from the current one. */
  lemma StepOrigin(d: Disk, m: Move, name: string, k: nat) returns (j: nat)
    requires Inv(d) && IsRecord(name) && k < |Step(d, m).versions|
    requires !(Changes(d, m, name) && k == |Step(d, m).versions| - 1)
    ensures var v := Step(d, m); j < |d.versions| && Value(v, v.versions[k], name) == Value(d, d.versions[j], name)
    ensures !m.LosePower? && k == |Step(d, m).versions| - 1 ==> j == |d.versions| - 1
  {
    var v := Step(d, m);
    j := if |v.versions| < |d.versions| || k >= |d.versions| then |d.versions| - 1 else k;
    if m.LosePower? {
      j := if m.version < |d.versions| && |m.garbage| == |d.inodes| then m.version else k;
      assert VersionOk(d, d.versions[j]);
      assert RecordOk(d, d.versions[j], name);
    } else if m.StopProcess? {
      j := k;
    } else if d.writing.Some? {
      WriteOrigin(d, d.writing.value, m, name, k);
    } else {
      IdleOrigin(d, m, name, k);
    }
  }

  lemma StepChange(d: Disk, m: Move, name: string)
    requires Inv(d) && IsRecord(name) && Changes(d, m, name)
    ensures var v := Step(d, m);
            Value(v, Current(v), name) == if m.Rename? then Some(d.writing.value.data) else None
  {
  }

  /** The values that a write under way, or a later write or removal, sets out to leave. */
  predicate Attempts(m: Move, name: string, value: Option<Bytes>) {
    || (m.Begin? && m.name == name && value == Some(m.data))
    || (m.Remove? && m.name == name && value == None)
  }

  predicate Attempted(d: Disk, moves: seq<Move>, name: string, value: Option<Bytes>) {
    || (d.writing.Some? && d.writing.value.name == name && value == Some(d.writing.value.data))
    || exists i | 0 <= i < |moves| :: Attempts(moves[i], name, value)
  }

  lemma AttemptedMore(d: Disk, moves: seq<Move>, name: string, value: Option<Bytes>)
    requires moves != []
    ensures Attempted(d, moves[..|moves| - 1], name, value) ==> Attempted(d, moves, name, value)
    ensures Attempts(moves[|moves| - 1], name, value) ==> Attempted(d, moves, name, value)
  {
    var front := moves[..|moves| - 1];
    if i :| 0 <= i < |front| && Attempts(front[i], name, value) {
      assert Attempts(moves[i], name, value);
    }
  }

  lemma {:induction false} WritingIsAttempted(d: Disk, moves: seq<Move>)
    requires d.versions != [] && Run(d, moves).writing.Some?
    ensures var w := Run(d, moves).writing.value; Attempted(d, moves, w.name, Some(w.data))
    decreases |moves|
  {
    if moves != [] {
      var front, last := moves[..|moves| - 1], moves[|moves| - 1];
      var u, w := Run(d, front), Run(d, moves).writing.value;
      AttemptedMore(d, moves, w.name, Some(w.data));
      if u.writing.Some? { WritingIsAttempted(d, front); }
    }
  }

  /**
  From any good state, through any steps, stops and power losses: in every version a record
  has a value that it had in some version at the start, or one that was attempted since.
  */
  lemma {:induction false} ValuesSince(d: Disk, moves: seq<Move>, name: string, k: nat)
    requires Inv(d) && IsRecord(name) && k < |Run(d, moves).versions|
    ensures var v := Run(d, moves);
            var value := Value(v, v.versions[k], name);
            MayBe(d, name, value) || Attempted(d, moves, name, value)
    decreases |moves|
  {
    if moves != [] {
      var front, last := moves[..|moves| - 1], moves[|moves| - 1];
      var u, v := Run(d, front), Run(d, moves);
      RunKeeps(d, front);
      var value := Value(v, v.versions[k], name);
      AttemptedMore(d, moves, name, value);
      if Changes(u, last, name) && k == |v.versions| - 1 {
        StepChange(u, last, name);
        if last.Rename? { WritingIsAttempted(d, front); }
      } else {
        var j := StepOrigin(u, last, name, k);
        ValuesSince(d, front, name, j);
      }
    }
  }

  const EMPTY := Disk([], [map[]], None)

  lemma EmptyIsGood()
    ensures Inv(EMPTY)
  {
    assert VersionOk(EMPTY, map[]);
  }

  lemma {:induction false} RunSplits(d: Disk, moves: seq<Move>, more: seq<Move>)
    requires d.versions != []
    ensures Run(d, moves + more) == Run(Run(d, moves), more)
    decreases |more|
  {
    if more == [] {
      assert moves + more == moves;
    } else {
      RunSplits(d, moves, more[..|more| - 1]);
      assert (moves + more)[..|moves + more| - 1] == moves + more[..|more| - 1];
    }
  }

  /**
  In every run from an empty directory, whatever stops: a record is absent or holds the whole
  envelope of one of its own writes. And from any point where the directory was flushed, it
  holds what it held then or what was attempted after.
  */
  lemma RecordsAreWhole(moves: seq<Move>, n: nat, name: string)
    requires IsRecord(name) && n <= |moves| && |Run(EMPTY, moves[..n]).versions| == 1
    ensures var u, v := Run(EMPTY, moves[..n]), Run(EMPTY, moves);
            var value := Value(v, Current(v), name);
            && (value.None? || exists i | 0 <= i < |moves| :: Attempts(moves[i], name, value))
            && (value == Value(u, Current(u), name) || Attempted(u, moves[n..], name, value))
  {
    EmptyIsGood();
    RunKeeps(EMPTY, moves[..n]);
    assert moves == moves[..n] + moves[n..];
    RunSplits(EMPTY, moves[..n], moves[n..]);
    WholeFromEmpty(moves, name);
    SinceSettled(Run(EMPTY, moves[..n]), moves[n..], name);
  }

  lemma WholeFromEmpty(moves: seq<Move>, name: string)
    requires IsRecord(name)
    ensures var v := Run(EMPTY, moves);
            var value := Value(v, Current(v), name);
            value.None? || exists i | 0 <= i < |moves| :: Attempts(moves[i], name, value)
  {
    EmptyIsGood();
    ValuesSince(EMPTY, moves, name, |Run(EMPTY, moves).versions| - 1);
  }

  /** From a state with one version. */
  lemma SinceSettled(d: Disk, moves: seq<Move>, name: string)
    requires Inv(d) && |d.versions| == 1 && IsRecord(name)
    ensures var v := Run(d, moves);
            var value := Value(v, Current(v), name);
            value == Value(d, Current(d), name) || Attempted(d, moves, name, value)
  {
    var v := Run(d, moves);
    ValuesSince(d, moves, name, |v.versions| - 1);
    OneVersion(d, name, Value(v, Current(v), name));
  }

  predicate Starts(m: Move) { m.Begin? || m.Remove? }

  /**
  Crash atomicity: stop a write after any step, lose power or not, sweep. The record then has a
  value that some version already had, or the whole new one; every other record has a value
  that some version already had. After a flush, and so after recovery, there is one version:
  whole old or whole new, and everything else as it was.
  */
  lemma CrashAtomicity(d: Disk, w: Write, moves: seq<Move>, name: string)
    requires Inv(d) && d.writing == Some(w) && IsRecord(name)
    requires forall i | 0 <= i < |moves| :: !Starts(moves[i])
    ensures var v := Run(d, moves);
            var value := Value(v, Current(v), name);
            && (MayBe(d, name, value) || (name == w.name && value == Some(w.data)))
            && (|d.versions| == 1 ==>
                  value == Value(d, Current(d), name) || (name == w.name && value == Some(w.data)))
  {
    var v := Run(d, moves);
    var value := Value(v, Current(v), name);
    ValuesSince(d, moves, name, |v.versions| - 1);
    NothingElseAttempted(d, moves, name, value);
    OneVersion(d, name, value);
  }

  lemma OneVersion(d: Disk, name: string, value: Option<Bytes>)
    requires d.versions != []
    ensures |d.versions| == 1 ==> (MayBe(d, name, value) <==> value == Value(d, Current(d), name))
  {
  }

  lemma NothingElseAttempted(d: Disk, moves: seq<Move>, name: string, value: Option<Bytes>)
    requires forall i | 0 <= i < |moves| :: !Starts(moves[i])
    ensures Attempted(d, moves, name, value) ==>
              d.writing.Some? && d.writing.value.name == name && value == Some(d.writing.value.data)
  {
  }

  predicate Touches(m: Move, name: string) { Starts(m) && m.name == name }

  /** A write that returned Ok stays, whatever stops, until the record is changed again. */
  lemma CommittedSurvives(d: Disk, w: Write, moves: seq<Move>)
    requires Inv(d) && d.writing == Some(w) && w.phase == Renamed
    requires forall i | 0 <= i < |moves| :: !Touches(moves[i], w.name)
    ensures var v := Run(Step(d, FlushDirectory), moves); Value(v, Current(v), w.name) == Some(w.data)
  {
    var u := Step(d, FlushDirectory);
    StepKeeps(d, FlushDirectory);
    FlushSettles(d, w);
    SinceSettled(u, moves, w.name);
    var v := Run(u, moves);
    UntouchedNotAttempted(u, moves, w.name, Value(v, Current(v), w.name));
  }

  lemma FlushSettles(d: Disk, w: Write)
    requires Inv(d) && d.writing == Some(w) && w.phase == Renamed
    ensures var u := Step(d, FlushDirectory);
            |u.versions| == 1 && u.writing.None? && Value(u, Current(u), w.name) == Some(w.data)
  {
  }

  lemma RemoveSettles(d: Disk, name: string)
    requires Inv(d) && d.writing.None? && IsRecord(name)
    ensures var u := Step(Step(d, Remove(name)), FlushDirectory);
            |u.versions| == 1 && u.writing.None? && Value(u, Current(u), name) == None
  {
    var v := Step(d, Remove(name));
    assert v == Enter(d, Current(d) - {name});
    assert Step(v, FlushDirectory) == v.(versions := [Current(d) - {name}]);
  }

  /** A removal that returned Ok stays too. */
  lemma RemovedStaysGone(d: Disk, name: string, moves: seq<Move>)
    requires Inv(d) && d.writing.None? && IsRecord(name)
    requires forall i | 0 <= i < |moves| :: !Touches(moves[i], name)
    ensures var u := Step(Step(d, Remove(name)), FlushDirectory);
            u.versions != [] && Value(Run(u, moves), Current(Run(u, moves)), name) == None
  {
    var u := Step(Step(d, Remove(name)), FlushDirectory);
    StepKeeps(d, Remove(name));
    StepKeeps(Step(d, Remove(name)), FlushDirectory);
    RemoveSettles(d, name);
    SinceSettled(u, moves, name);
    var v := Run(u, moves);
    UntouchedNotAttempted(u, moves, name, Value(v, Current(v), name));
  }

  lemma UntouchedNotAttempted(d: Disk, moves: seq<Move>, name: string, value: Option<Bytes>)
    requires d.writing.None? && forall i | 0 <= i < |moves| :: !Touches(moves[i], name)
    ensures !Attempted(d, moves, name, value)
  {
  }

  // What the calls leave of the records they are not about.

  /** The value is the same now, and no new value is possible after power loss. */
  predicate Kept(d: Disk, v: Disk, name: string)
    requires d.versions != [] && v.versions != []
  {
    && Value(v, Current(v), name) == Value(d, Current(d), name)
    && forall k | 0 <= k < |v.versions| :: MayBe(d, name, Value(v, v.versions[k], name))
  }

  ghost predicate KeptAll(d: Disk, v: Disk) {
    d.versions != [] && v.versions != [] && forall name | IsRecord(name) :: Kept(d, v, name)
  }

  /** Only this record may have changed, and only to `data`. */
  ghost predicate Wrote(d: Disk, v: Disk, name: string, data: Bytes) {
    && d.versions != [] && v.versions != []
    && (forall other | IsRecord(other) && other != name :: Kept(d, v, other))
    && (forall k | 0 <= k < |v.versions| ::
          var value := Value(v, v.versions[k], name); MayBe(d, name, value) || value == Some(data))
  }

  lemma KeptSelf(d: Disk)
    requires d.versions != []
    ensures KeptAll(d, d)
  {
    forall name | IsRecord(name) ensures Kept(d, d, name) {
      forall k | 0 <= k < |d.versions| ensures MayBe(d, name, Value(d, d.versions[k], name)) {
      }
    }
  }

  lemma KeptAllWrote(d: Disk, v: Disk, name: string, data: Bytes)
    requires IsRecord(name) && KeptAll(d, v)
    ensures Wrote(d, v, name, data)
  {
    assert Kept(d, v, name);
  }

  lemma KeptTransitive(d: Disk, u: Disk, v: Disk, name: string)
    requires d.versions != [] && u.versions != [] && v.versions != [] && Kept(d, u, name) && Kept(u, v, name)
    ensures Kept(d, v, name)
  {
    forall k | 0 <= k < |v.versions| ensures MayBe(d, name, Value(v, v.versions[k], name)) {
      var j :| 0 <= j < |u.versions| && Value(u, u.versions[j], name) == Value(v, v.versions[k], name);
    }
  }

  lemma KeptAllTransitive(d: Disk, u: Disk, v: Disk)
    requires KeptAll(d, u) && KeptAll(u, v)
    ensures KeptAll(d, v)
  {
    forall name | IsRecord(name) ensures Kept(d, v, name) { KeptTransitive(d, u, v, name); }
  }

  lemma WroteAfter(d: Disk, u: Disk, v: Disk, name: string, data: Bytes)
    requires IsRecord(name) && KeptAll(d, u) && Wrote(u, v, name, data)
    ensures Wrote(d, v, name, data)
  {
    forall other | IsRecord(other) && other != name ensures Kept(d, v, other) { KeptTransitive(d, u, v, other); }
    forall k | 0 <= k < |v.versions|
      ensures var value := Value(v, v.versions[k], name); MayBe(d, name, value) || value == Some(data)
    {
      var value := Value(v, v.versions[k], name);
      if value != Some(data) {
        var j :| 0 <= j < |u.versions| && Value(u, u.versions[j], name) == value;
        assert Kept(d, u, name);
      }
    }
  }

  lemma WroteBefore(d: Disk, u: Disk, v: Disk, name: string, data: Bytes)
    requires IsRecord(name) && Wrote(d, u, name, data) && KeptAll(u, v)
    ensures Wrote(d, v, name, data)
  {
    forall other | IsRecord(other) && other != name ensures Kept(d, v, other) { KeptTransitive(d, u, v, other); }
    forall k | 0 <= k < |v.versions|
      ensures var value := Value(v, v.versions[k], name); MayBe(d, name, value) || value == Some(data)
    {
      var value := Value(v, v.versions[k], name);
      assert Kept(u, v, name);
      var j :| 0 <= j < |u.versions| && Value(u, u.versions[j], name) == value;
    }
  }

  lemma StepKept(d: Disk, m: Move, name: string)
    requires Inv(d) && IsRecord(name) && !m.LosePower? && !Changes(d, m, name)
    ensures Step(d, m).versions != [] && Kept(d, Step(d, m), name)
  {
    var v := Step(d, m);
    StepKeeps(d, m);
    var _ := StepOrigin(d, m, name, |v.versions| - 1);
    forall k | 0 <= k < |v.versions| ensures MayBe(d, name, Value(v, v.versions[k], name)) {
      var j := StepOrigin(d, m, name, k);
    }
  }

  lemma StepKeptAll(d: Disk, m: Move)
    requires Inv(d) && !m.LosePower? && !m.Rename? && !m.Remove?
    ensures KeptAll(d, Step(d, m))
  {
    StepKeeps(d, m);
    forall name | IsRecord(name) ensures Kept(d, Step(d, m), name) { StepKept(d, m, name); }
  }

  lemma RenameWrote(d: Disk, w: Write)
    requires Inv(d) && d.writing == Some(w) && w.phase == Flushed
    ensures Wrote(d, Step(d, Rename), w.name, w.data)
  {
    var v := Step(d, Rename);
    StepKeeps(d, Rename);
    forall other | IsRecord(other) && other != w.name ensures Kept(d, v, other) { StepKept(d, Rename, other); }
    forall k | 0 <= k < |v.versions|
      ensures var value := Value(v, v.versions[k], w.name); MayBe(d, w.name, value) || value == Some(w.data)
    {
      if k == |v.versions| - 1 {
        StepChange(d, Rename, w.name);
      } else {
        var j := StepOrigin(d, Rename, w.name, k);
      }
    }
  }

  // The store's own loops.

  /** The directory without the temporaries among `names`. */
  function Swept(start: Directory, names: seq<string>): Directory {
    map name | name in start && !(IsTemporary(name) && name in names) :: start[name]
  }

  lemma SweptMore(start: Directory, listing: seq<string>, i: nat)
    requires i < |listing|
    ensures Swept(start, listing[..i + 1]) ==
            if IsTemporary(listing[i]) then Swept(start, listing[..i]) - {listing[i]} else Swept(start, listing[..i])
  {
    assert listing[..i + 1] == listing[..i] + [listing[i]];
  }

  lemma SweptAll(start: Directory, listing: seq<string>)
    requires Enumerates(listing, start.Keys)
    ensures Swept(start, listing) == map name | name in start && !IsTemporary(name) :: start[name]
  {
    forall name | name in start ensures name in listing { assert name in start.Keys; }
  }

  lemma BeginThenCreate(d: Disk, name: string, data: Bytes, suffix: string, fails: bool)
    requires Inv(d) && d.writing.None? && IsRecord(name)
    ensures var u := Step(d, Begin(name, data, suffix));
            u.versions == d.versions && u.writing.Some?
    ensures var u := Step(d, Begin(name, data, suffix));
            var v := Step(u, if fails then Fail else Create);
            && v.writing.Some? && v.writing.value.name == name && v.writing.value.data == data
            && v.writing.value.temporary == Temporary(name, suffix)
            && (v.writing.value.phase == Writing <==> !fails && Temporary(name, suffix) !in Current(d))
            && (v.writing.value.phase == Writing ==>
                  && v.writing.value.inode < |v.inodes| && v.inodes[v.writing.value.inode].data == []
                  && Current(v) == Current(d)[Temporary(name, suffix) := v.writing.value.inode])
  {
  }

  lemma AppendEffect(d: Disk, w: Write, count: nat)
    requires Inv(d) && d.writing == Some(w) && w.phase == Writing && count <= |w.data|
    ensures var v := Step(d, Append(count));
            && v.writing == d.writing && v.versions == d.versions && |v.inodes| == |d.inodes|
            && v.inodes[w.inode].data == w.data[..count]
  {
    assert Step(d, Append(count)) == d.(inodes := d.inodes[w.inode := Inode(w.data[..count], false)]);
  }

  lemma FailThenDiscard(d: Disk, removed: bool)
    requires Inv(d) && d.writing.Some?
    ensures Step(d, Fail).versions != [] && Step(Step(d, Fail), Discard(removed)).writing.None?
    ensures var v := Step(Step(d, Fail), Discard(removed));
            v.versions != [] && (removed ==> d.writing.value.temporary !in Current(v))
  {
  }

  class RecordDirectory {
    var disk: Disk

    constructor ()
      ensures disk == EMPTY
    {
      disk := EMPTY;
    }

    /** One step; `fails` says whether the system reports an error instead. */
    method Perform(m: Move, fails: bool)
      requires Inv(disk) && !m.LosePower? && !m.Remove?
      modifies this
      ensures Inv(disk) && disk == Step(old(disk), if fails then Fail else m)
      ensures fails || !m.Rename? ==> KeptAll(old(disk), disk)
    {
      StepKeeps(disk, if fails then Fail else m);
      if fails || !m.Rename? { StepKeptAll(disk, if fails then Fail else m); }
      disk := Step(disk, if fails then Fail else m);
    }

    /** One more piece. */
    method WriteUpTo(count: nat)
      requires Inv(disk) && disk.writing.Some? && disk.writing.value.phase == Writing && count <= |disk.writing.value.data|
      modifies this
      ensures Inv(disk) && disk.writing == old(disk.writing) && disk.versions == old(disk.versions) && KeptAll(old(disk), disk)
      ensures disk.inodes[disk.writing.value.inode].data == disk.writing.value.data[..count]
    {
      AppendEffect(disk, disk.writing.value, count);
      Perform(Append(count), false);
    }

    /** Write in pieces until all is written; `limit` is where the system stops taking data. */
    method WriteAll(piece: nat, limit: nat) returns (ok: bool)
      requires Inv(disk) && disk.writing.Some? && disk.writing.value.phase == Writing && piece > 0
      requires disk.inodes[disk.writing.value.inode].data == []
      modifies this
      ensures Inv(disk) && disk.writing == old(disk.writing) && disk.versions == old(disk.versions) && KeptAll(old(disk), disk)
      ensures ok <==> limit >= |disk.writing.value.data|
      ensures ok ==> disk.inodes[disk.writing.value.inode].data == disk.writing.value.data
    {
      var w, done := disk.writing.value, 0;
      KeptSelf(disk);
      while done < |w.data|
        invariant Inv(disk) && disk.writing == old(disk.writing) && disk.versions == old(disk.versions)
        invariant done <= |w.data| && done <= limit
        invariant disk.inodes[w.inode].data == w.data[..done]
        invariant KeptAll(old(disk), disk)
      {
        var next := if done + piece < |w.data| then done + piece else |w.data|;
        if limit < next {
          return limit >= |w.data|;
        }
        ghost var before := disk;
        WriteUpTo(next);
        KeptAllTransitive(old(disk), before, disk);
        done := next;
      }
      return true;
    }

    /**
    Create, write, flush, rename, set permissions, flush the directory; `fault` is the step that
    fails, if any. Ok means the new value is the only one possible; otherwise the old ones and the
    new one are, and nothing else about any record has changed.
    */
    method AtomicWrite(name: string, data: Bytes, suffix: string, piece: nat, fault: nat, removed: bool) returns (ok: bool)
      requires Inv(disk) && disk.writing.None? && piece > 0
      modifies this
      ensures Inv(disk) && disk.writing.None?
      ensures ok <==> IsRecord(name) && fault >= 6 && Temporary(name, suffix) !in Current(old(disk))
      ensures ok ==> |disk.versions| == 1 && Value(disk, Current(disk), name) == Some(data)
      ensures ok ==> Current(disk).Keys == Current(old(disk)).Keys + {name}
      ensures !ok && IsRecord(name) && removed ==> Temporary(name, suffix) !in Current(disk)
      ensures if IsRecord(name) then Wrote(old(disk), disk, name, data) else disk == old(disk)
    {
      if !IsRecord(name) { return false; }
      ok := Start(name, data, suffix, fault == 0);
      ghost var begun := disk;
      if ok {
        ok := WriteAll(piece, if fault == 1 && data != [] then |data| - 1 else |data|);
        KeptAllTransitive(old(disk), begun, disk);
      }
      if ok && fault == 1 { ok := false; }
      ghost var written := disk;
      if ok {
        ok := Settle(fault);
        WroteAfter(old(disk), written, disk, name, data);
      } else {
        KeptAllWrote(old(disk), disk, name, data);
      }
      ghost var settled := disk;
      if !ok {
        Abandon(removed);
        WroteBefore(old(disk), settled, disk, name, data);
      }
    }

    method Start(name: string, data: Bytes, suffix: string, fails: bool) returns (ok: bool)
      requires Inv(disk) && disk.writing.None? && IsRecord(name)
      modifies this
      ensures Inv(disk) && KeptAll(old(disk), disk)
      ensures disk.writing.Some? && disk.writing.value.name == name && disk.writing.value.data == data
      ensures disk.writing.value.temporary == Temporary(name, suffix)
      ensures ok ==> Current(disk) == Current(old(disk))[Temporary(name, suffix) := disk.writing.value.inode]
      ensures ok <==> !fails && Temporary(name, suffix) !in Current(old(disk))
      ensures ok ==> disk.writing.value.phase == Writing && disk.inodes[disk.writing.value.inode].data == []
    {
      BeginThenCreate(disk, name, data, suffix, fails);
      Perform(Begin(name, data, suffix), false);
      ghost var begun := disk;
      Perform(Create, fails);
      KeptAllTransitive(old(disk), begun, disk);
      ok := disk.writing.value.phase == Writing;
    }

    /** The error path: remove the temporary, if the system lets it. */
    method Abandon(removed: bool)
      requires Inv(disk) && disk.writing.Some?
      modifies this
      ensures Inv(disk) && disk.writing.None? && KeptAll(old(disk), disk)
      ensures removed ==> old(disk.writing).value.temporary !in Current(disk)
    {
      FailThenDiscard(disk, removed);
      Perform(Fail, false);
      ghost var failing := disk;
      Perform(Discard(removed), false);
      KeptAllTransitive(old(disk), failing, disk);
    }

    /** From the written temporary to the flushed directory. */
    method Settle(fault: nat) returns (ok: bool)
      requires Inv(disk) && disk.writing.Some? && disk.writing.value.phase == Writing
      requires disk.inodes[disk.writing.value.inode].data == disk.writing.value.data
      modifies this
      ensures Inv(disk)
      ensures ok <==> !(2 <= fault <= 5)
      ensures var w := old(disk.writing).value;
              && Wrote(old(disk), disk, w.name, w.data)
              && (if ok then disk.writing.None? else disk.writing.Some? && disk.writing.value.temporary == w.temporary)
              && (ok ==> |disk.versions| == 1 && Value(disk, Current(disk), w.name) == Some(w.data))
              && (ok ==> Current(disk) == (Current(old(disk)) - {w.temporary})[w.name := w.inode])
    {
      ghost var w := disk.writing.value;
      KeptSelf(disk);
      KeptAllWrote(disk, disk, w.name, w.data);
      if fault == 2 { return false; }
      Perform(Flush, false);
      KeptAllWrote(old(disk), disk, w.name, w.data);
      if fault == 3 { return false; }
      ghost var flushed := disk;
      ok := Publish(fault);
      WroteAfter(old(disk), flushed, disk, w.name, w.data);
    }

    method Publish(fault: nat) returns (ok: bool)
      requires Inv(disk) && disk.writing.Some? && disk.writing.value.phase == Flushed
      modifies this
      ensures Inv(disk)
      ensures ok <==> !(4 <= fault <= 5)
      ensures var w := old(disk.writing).value;
              && Wrote(old(disk), disk, w.name, w.data)
              && (if ok then disk.writing.None? else disk.writing.Some? && disk.writing.value.temporary == w.temporary)
              && (ok ==> |disk.versions| == 1 && Value(disk, Current(disk), w.name) == Some(w.data))
              && (ok ==> Current(disk) == (Current(old(disk)) - {w.temporary})[w.name := w.inode])
    {
      ghost var w := disk.writing.value;
      RenameWrote(disk, w);
      Perform(Rename, false);
      if fault == 4 || fault == 5 { return false; }
      ghost var renamed := disk;
      Perform(FlushDirectory, false);
      WroteBefore(old(disk), renamed, disk, w.name, w.data);
      ok := true;
    }

    /** `recover_interrupted_writes`: walk the listing, remove every temporary, flush. One version is left. */
    method Recover(listing: seq<string>)
      requires Inv(disk) && disk.writing.None? && Enumerates(listing, Current(disk).Keys)
      modifies this
      ensures Inv(disk) && disk.writing.None? && disk.versions == [Current(disk)]
      ensures Current(disk) == map name | name in Current(old(disk)) && !IsTemporary(name) :: Current(old(disk))[name]
      ensures disk.inodes == old(disk.inodes) && KeptAll(old(disk), disk)
    {
      ghost var start := Current(disk);
      KeptSelf(disk);
      for i := 0 to |listing|
        invariant Inv(disk) && disk.writing.None?
        invariant Current(disk) == Swept(start, listing[..i])
        invariant disk.inodes == old(disk.inodes) && KeptAll(old(disk), disk)
      {
        SweptMore(start, listing, i);
        ghost var before := disk;
        if IsTemporary(listing[i]) {
          Perform(Sweep(listing[i]), false);
          KeptAllTransitive(old(disk), before, disk);
        }
      }
      assert listing[..|listing|] == listing;
      SweptAll(start, listing);
      ghost var swept := disk;
      Perform(FlushDirectory, false);
      KeptAllTransitive(old(disk), swept, disk);
    }
  }
}
