/**
The two incremental line decoders: the daemon's `RequestDecoder` and the desktop
bridge's `Lines`. What one line means is a function handed in: for the daemon it
strips a carriage return, parses and validates; for the bridge it parses.
*/
module LineDecoder {
  import opened Common

  const NEWLINE: byte := 10

  datatype LineError<+E> = LineTooLarge | Bad(error: E)

  /** The position of the first newline, from `from` on. */
  function NewlineFrom(s: Bytes, from: nat): (r: Option<nat>)
    ensures r.Some? ==> from <= r.value < |s| && s[r.value] == NEWLINE && forall i | from <= i < r.value :: s[i] != NEWLINE
    ensures r.None? ==> forall i | from <= i < |s| :: s[i] != NEWLINE
    decreases |s| - from
  {
    if from >= |s| then None else if s[from] == NEWLINE then Some(from) else NewlineFrom(s, from + 1)
  }

  function Newline(s: Bytes): Option<nat> { NewlineFrom(s, 0) }

  // Line by line.

  function Lines(s: Bytes): seq<Bytes>
    decreases |s|
  {
    match Newline(s)
    case None => []
    case Some(i) => [s[..i]] + Lines(s[i + 1..])
  }

  /** What follows the last newline. */
  function Fragment(s: Bytes): Bytes
    decreases |s|
  {
    match Newline(s)
    case None => s
    case Some(i) => Fragment(s[i + 1..])
  }

  function Values<T, E>(decode: Bytes -> Result<T, E>, lines: seq<Bytes>): seq<T>
    requires forall i | 0 <= i < |lines| :: decode(lines[i]).Ok?
  {
    seq(|lines|, i requires 0 <= i < |lines| => decode(lines[i]).value)
  }

  predicate Good<T, E>(max: nat, decode: Bytes -> Result<T, E>, s: Bytes) {
    && (forall i | 0 <= i < |Lines(s)| :: |Lines(s)[i]| <= max && decode(Lines(s)[i]).Ok?)
    && |Fragment(s)| <= max
  }

  /** The decoding loop over a buffer: what it returns and what it leaves in the buffer. */
  function Drain<T, E>(max: nat, decode: Bytes -> Result<T, E>, s: Bytes, out: seq<T>)
    : (r: (Result<seq<T>, LineError<E>>, Bytes))
    decreases |s|
  {
    match Newline(s)
    case None => if |s| > max then (Err(LineTooLarge), []) else (Ok(out), s)
    case Some(i) =>
      if i > max then (Err(LineTooLarge), s[i + 1..])
      else match decode(s[..i])
        case Err(e) => (Err(Bad(e)), s[i + 1..])
        case Ok(value) => Drain(max, decode, s[i + 1..], out + [value])
  }

  /** The early refusal: too long already, and no newline where one would have to be. */
  predicate Hopeless(max: nat, buffer: Bytes, bytes: Bytes) {
    && |buffer| + |bytes| > max
    && var room := if max > |buffer| then max - |buffer| else 0;
       forall i | 0 <= i < |bytes| && i < room + 1 :: bytes[i] != NEWLINE
  }

  function Push<T, E>(max: nat, decode: Bytes -> Result<T, E>, buffer: Bytes, bytes: Bytes)
    : (Result<seq<T>, LineError<E>>, Bytes)
  {
    if Hopeless(max, buffer, bytes) then (Err(LineTooLarge), []) else Drain(max, decode, buffer + bytes, [])
  }

  /** Pieces one after another, until one fails. */
  function PushAll<T, E>(max: nat, decode: Bytes -> Result<T, E>, buffer: Bytes, pieces: seq<Bytes>)
    : Result<(seq<T>, Bytes), LineError<E>>
    decreases |pieces|
  {
    if pieces == [] then Ok(([], buffer))
    else match Push(max, decode, buffer, pieces[0])
      case (Err(e), _) => Err(e)
      case (Ok(out), rest) =>
        match PushAll(max, decode, rest, pieces[1..])
        case Err(e) => Err(e)
        case Ok((more, last)) => Ok((out + more, last))
  }

  /** The bridge's `feed` has no early refusal. */
  function FeedAll<T, E>(max: nat, decode: Bytes -> Result<T, E>, buffer: Bytes, pieces: seq<Bytes>)
    : Result<(seq<T>, Bytes), LineError<E>>
    decreases |pieces|
  {
    if pieces == [] then Ok(([], buffer))
    else match Drain(max, decode, buffer + pieces[0], [])
      case (Err(e), _) => Err(e)
      case (Ok(out), rest) =>
        match FeedAll(max, decode, rest, pieces[1..])
        case Err(e) => Err(e)
        case Ok((more, last)) => Ok((out + more, last))
  }

  // The loop is the line-by-line reading.

  lemma {:induction false} DrainIff<T, E>(max: nat, decode: Bytes -> Result<T, E>, s: Bytes, out: seq<T>)
    ensures Drain(max, decode, s, out).0.Ok? <==> Good(max, decode, s)
    ensures Good(max, decode, s) ==> Drain(max, decode, s, out) == (Ok(out + Values(decode, Lines(s))), Fragment(s))
    decreases |s|
  {
    match Newline(s)
    case None =>
      assert out + Values(decode, []) == out;
    case Some(i) =>
      GoodCons(max, decode, s, i);
      if i <= max && decode(s[..i]).Ok? {
        DrainIff(max, decode, s[i + 1..], out + [decode(s[..i]).value]);
        if Good(max, decode, s) { ValuesCons(max, decode, s, i, out); }
      }
  }

  lemma ValuesOfCons<T, E>(decode: Bytes -> Result<T, E>, first: Bytes, rest: seq<Bytes>)
    requires decode(first).Ok? && forall i | 0 <= i < |rest| :: decode(rest[i]).Ok?
    ensures forall i | 0 <= i < |[first] + rest| :: decode(([first] + rest)[i]).Ok?
    ensures Values(decode, [first] + rest) == [decode(first).value] + Values(decode, rest)
  {
  }

  lemma ValuesCons<T, E>(max: nat, decode: Bytes -> Result<T, E>, s: Bytes, i: nat, out: seq<T>)
    requires Newline(s) == Some(i) && decode(s[..i]).Ok? && Good(max, decode, s[i + 1..]) && Good(max, decode, s)
    ensures out + [decode(s[..i]).value] + Values(decode, Lines(s[i + 1..])) == out + Values(decode, Lines(s))
  {
    var value, rest := decode(s[..i]).value, Lines(s[i + 1..]);
    ValuesOfCons(decode, s[..i], rest);
    var values := Values(decode, rest);
    assert out + [value] + values == out + ([value] + values);
  }

  lemma GoodCons<T, E>(max: nat, decode: Bytes -> Result<T, E>, s: Bytes, i: nat)
    requires Newline(s) == Some(i)
    ensures Good(max, decode, s) <==> i <= max && decode(s[..i]).Ok? && Good(max, decode, s[i + 1..])
  {
    var rest := s[i + 1..];
    assert Lines(s) == [s[..i]] + Lines(rest) && Lines(s)[0] == s[..i];
    forall k | 0 <= k < |Lines(rest)| ensures Lines(s)[k + 1] == Lines(rest)[k] {
    }
    assert forall k | 0 < k < |Lines(s)| :: Lines(s)[k] == Lines(rest)[k - 1];
  }

  lemma NewlineGrows(s: Bytes, more: Bytes)
    ensures Newline(s).Some? ==> Newline(s + more) == Newline(s)
    ensures Newline(s).None? && Newline(s + more).Some? ==> Newline(s + more).value >= |s|
  {
    if Newline(s).Some? {
      var i := Newline(s).value;
      assert (s + more)[i] == NEWLINE;
      assert forall j | 0 <= j < i :: (s + more)[j] == s[j];
    } else {
      assert forall j | 0 <= j < |s| :: (s + more)[j] == s[j];
    }
  }

  /** Draining more bytes goes on from the fragment; an error stands. */
  lemma {:induction false} DrainGrows<T, E>(max: nat, decode: Bytes -> Result<T, E>, s: Bytes, out: seq<T>, more: Bytes)
    ensures var (r, rest) := Drain(max, decode, s, out);
            && (r.Ok? ==> Drain(max, decode, s + more, out) == Drain(max, decode, rest + more, r.value))
            && (r.Ok? ==> Newline(rest).None? && |rest| <= max)
            && (r.Err? ==> Drain(max, decode, s + more, out).0 == r)
    decreases |s|
  {
    NewlineGrows(s, more);
    if Newline(s).Some? {
      var i := Newline(s).value;
      assert (s + more)[..i] == s[..i] && (s + more)[i + 1..] == s[i + 1..] + more;
      if i <= max && decode(s[..i]).Ok? {
        DrainGrows(max, decode, s[i + 1..], out + [decode(s[..i]).value], more);
      }
    }
  }

  lemma {:induction false} DrainPrepends<T, E>(max: nat, decode: Bytes -> Result<T, E>, s: Bytes, out: seq<T>)
    ensures var (r, rest) := Drain(max, decode, s, []);
            && Drain(max, decode, s, out).1 == rest
            && Drain(max, decode, s, out).0 == if r.Ok? then Ok(out + r.value) else r
    decreases |s|
  {
    match Newline(s)
    case None => assert out + [] == out;
    case Some(i) =>
      if i <= max && decode(s[..i]).Ok? {
        var v := decode(s[..i]).value;
        DrainPrepends(max, decode, s[i + 1..], out + [v]);
        DrainPrepends(max, decode, s[i + 1..], [] + [v]);
        var r := Drain(max, decode, s[i + 1..], []).0;
        if r.Ok? { assert out + [v] + r.value == out + ([] + [v] + r.value); }
      }
  }

  /** The early refusal only says sooner what the loop would say. */
  lemma HopelessIsTooLarge<T, E>(max: nat, decode: Bytes -> Result<T, E>, buffer: Bytes, bytes: Bytes)
    requires Newline(buffer).None? && |buffer| <= max && Hopeless(max, buffer, bytes)
    ensures Drain(max, decode, buffer + bytes, []).0 == Err(LineTooLarge)
  {
    var s := buffer + bytes;
    if Newline(s).Some? {
      var i := Newline(s).value;
      NewlineGrows(buffer, bytes);
      assert s[i] == bytes[i - |buffer|];
    }
  }

  function Whole(pieces: seq<Bytes>): Bytes { if pieces == [] then [] else pieces[0] + Whole(pieces[1..]) }

  /** What any cutting of `s` yields. */
  function Outcome<T, E>(max: nat, decode: Bytes -> Result<T, E>, s: Bytes): Result<(seq<T>, Bytes), LineError<E>> {
    match Drain(max, decode, s, [])
    case (Ok(out), rest) => Ok((out, rest))
    case (Err(e), _) => Err(e)
  }

  /** Pushing pieces is draining the whole, for every way to cut it. */
  lemma {:induction false} PushAllIsDrain<T, E>(max: nat, decode: Bytes -> Result<T, E>, buffer: Bytes, pieces: seq<Bytes>)
    requires Newline(buffer).None? && |buffer| <= max
    ensures PushAll(max, decode, buffer, pieces) == Outcome(max, decode, buffer + Whole(pieces))
    ensures FeedAll(max, decode, buffer, pieces) == Outcome(max, decode, buffer + Whole(pieces))
    decreases |pieces|
  {
    if pieces == [] {
      assert buffer + Whole(pieces) == buffer;
    } else {
      var s, more := buffer + pieces[0], Whole(pieces[1..]);
      assert buffer + Whole(pieces) == s + more;
      var (r, rest) := Drain(max, decode, s, []);
      DrainGrows(max, decode, s, [], more);
      if Hopeless(max, buffer, pieces[0]) { HopelessIsTooLarge(max, decode, buffer, pieces[0]); }
      if r.Ok? {
        PushAllIsDrain(max, decode, rest, pieces[1..]);
        DrainPrepends(max, decode, rest + more, r.value);
      }
    }
  }

  /**
  However a stream is cut: no push fails exactly when every line is within the limit and
  decodes, and the unfinished fragment is within the limit. Then the values are those of the
  lines in order and the buffer is the fragment. The bridge's decoder agrees on every input.
  */
  lemma CutIndependence<T, E>(max: nat, decode: Bytes -> Result<T, E>, pieces: seq<Bytes>)
    ensures PushAll(max, decode, [], pieces).Ok? <==> Good(max, decode, Whole(pieces))
    ensures Good(max, decode, Whole(pieces)) ==>
              PushAll(max, decode, [], pieces) == Ok((Values(decode, Lines(Whole(pieces))), Fragment(Whole(pieces))))
    ensures FeedAll(max, decode, [], pieces) == PushAll(max, decode, [], pieces)
  {
    PushAllIsDrain(max, decode, [], pieces);
    assert [] + Whole(pieces) == Whole(pieces);
    DrainIff(max, decode, Whole(pieces), []);
    if Good(max, decode, Whole(pieces)) {
      assert [] + Values(decode, Lines(Whole(pieces))) == Values(decode, Lines(Whole(pieces)));
    }
  }

  /** Even the error is the same for two ways to cut one stream. */
  lemma SameError<T, E>(max: nat, decode: Bytes -> Result<T, E>, one: seq<Bytes>, two: seq<Bytes>)
    requires Whole(one) == Whole(two)
    ensures PushAll(max, decode, [], one) == PushAll(max, decode, [], two)
  {
    PushAllIsDrain(max, decode, [], one);
    PushAllIsDrain(max, decode, [], two);
  }

  // Failing.

  /** All lines before line `k` are good, and line `k`, or the fragment, is the first that is not. */
  predicate FirstBad<T, E>(max: nat, decode: Bytes -> Result<T, E>, s: Bytes, k: nat) {
    && k <= |Lines(s)|
    && (forall i | 0 <= i < k :: |Lines(s)[i]| <= max && decode(Lines(s)[i]).Ok?)
    && if k < |Lines(s)| then |Lines(s)[k]| > max || decode(Lines(s)[k]).Err? else |Fragment(s)| > max
  }

  /** The error that names line `k`; a line that is too long is not decoded. */
  function ErrorAt<T, E>(max: nat, decode: Bytes -> Result<T, E>, s: Bytes, k: nat): LineError<E>
    requires FirstBad(max, decode, s, k)
  {
    if k == |Lines(s)| || |Lines(s)[k]| > max then LineTooLarge else Bad(decode(Lines(s)[k]).error)
  }

  lemma LinesCons(s: Bytes, i: nat, k: nat)
    requires Newline(s) == Some(i) && k <= |Lines(s[i + 1..])|
    ensures |Lines(s)| == |Lines(s[i + 1..])| + 1 && Lines(s)[0] == s[..i] && Fragment(s) == Fragment(s[i + 1..])
    ensures Lines(s)[k + 1..] == Lines(s[i + 1..])[k..]
    ensures k < |Lines(s[i + 1..])| ==> Lines(s)[k + 1] == Lines(s[i + 1..])[k]
  {
    assert Lines(s) == [s[..i]] + Lines(s[i + 1..]);
  }

  /** A good first line moves the first bad one by one. */
  lemma FirstBadCons<T, E>(max: nat, decode: Bytes -> Result<T, E>, s: Bytes, i: nat, k: nat)
    requires Newline(s) == Some(i) && i <= max && decode(s[..i]).Ok?
    ensures FirstBad(max, decode, s, k + 1) <==> FirstBad(max, decode, s[i + 1..], k)
    ensures FirstBad(max, decode, s, k + 1) ==> ErrorAt(max, decode, s, k + 1) == ErrorAt(max, decode, s[i + 1..], k)
  {
    var rest := s[i + 1..];
    forall j: nat | j < |Lines(rest)| ensures Lines(s)[j + 1] == Lines(rest)[j] { LinesCons(s, i, j); }
    LinesCons(s, i, 0);
    if FirstBad(max, decode, s, k + 1) {
      forall j: nat | j < k ensures |Lines(rest)[j]| <= max && decode(Lines(rest)[j]).Ok? { assert Lines(s)[j + 1] == Lines(rest)[j]; }
    }
    if FirstBad(max, decode, rest, k) {
      forall j: nat | j < k + 1 ensures |Lines(s)[j]| <= max && decode(Lines(s)[j]).Ok? {
        if j > 0 { assert Lines(s)[j - 1 + 1] == Lines(rest)[j - 1]; }
      }
    }
  }

  /** What stands after line `k`, or nothing after the fragment. */
  predicate After(s: Bytes, k: nat, rest: Bytes) {
    if k >= |Lines(s)| then rest == [] else Lines(rest) == Lines(s)[k + 1..] && Fragment(rest) == Fragment(s)
  }

  lemma AfterCons(s: Bytes, i: nat, k: nat, rest: Bytes)
    requires Newline(s) == Some(i) && After(s[i + 1..], k, rest) && k <= |Lines(s[i + 1..])|
    ensures After(s, k + 1, rest)
  {
    LinesCons(s, i, k);
    if k < |Lines(s[i + 1..])| { LinesCons(s, i, k + 1); }
  }

  predicate GoodFirst<T, E>(max: nat, decode: Bytes -> Result<T, E>, s: Bytes) {
    Newline(s).Some? && Newline(s).value <= max && decode(s[..Newline(s).value]).Ok?
  }

  lemma FailsAtOnce<T, E>(max: nat, decode: Bytes -> Result<T, E>, s: Bytes, out: seq<T>)
    requires Drain(max, decode, s, out).0.Err? && !GoodFirst(max, decode, s)
    ensures FirstBad(max, decode, s, 0) && Drain(max, decode, s, out).0 == Err(ErrorAt(max, decode, s, 0))
    ensures After(s, 0, Drain(max, decode, s, out).1)
  {
    if Newline(s).Some? { LinesCons(s, Newline(s).value, 0); }
  }

  lemma DrainCons<T, E>(max: nat, decode: Bytes -> Result<T, E>, s: Bytes, out: seq<T>, i: nat)
    requires Newline(s) == Some(i) && i <= max && decode(s[..i]).Ok?
    ensures Drain(max, decode, s, out) == Drain(max, decode, s[i + 1..], out + [decode(s[..i]).value])
  {
  }

  /** A failing loop fails at the first bad line, and leaves in the buffer what stands after it. */
  lemma {:induction false} DrainFails<T, E>(max: nat, decode: Bytes -> Result<T, E>, s: Bytes, out: seq<T>) returns (k: nat)
    requires Drain(max, decode, s, out).0.Err?
    ensures FirstBad(max, decode, s, k) && Drain(max, decode, s, out).0 == Err(ErrorAt(max, decode, s, k))
    ensures After(s, k, Drain(max, decode, s, out).1)
    decreases |s|
  {
    if !GoodFirst(max, decode, s) {
      k := 0;
      FailsAtOnce(max, decode, s, out);
    } else {
      var i := Newline(s).value;
      var rest, more := s[i + 1..], out + [decode(s[..i]).value];
      DrainCons(max, decode, s, out, i);
      var j := DrainFails(max, decode, rest, more);
      FirstBadCons(max, decode, s, i, j);
      AfterCons(s, i, j, Drain(max, decode, rest, more).1);
      k := j + 1;
    }
  }

  /** A stream that is not good fails, however it is cut, with the error of its first bad line. */
  lemma FailsAtFirstBad<T, E>(max: nat, decode: Bytes -> Result<T, E>, pieces: seq<Bytes>) returns (k: nat)
    requires PushAll(max, decode, [], pieces).Err?
    ensures FirstBad(max, decode, Whole(pieces), k)
    ensures PushAll(max, decode, [], pieces) == Err(ErrorAt(max, decode, Whole(pieces), k))
  {
    PushAllIsDrain(max, decode, [], pieces);
    assert [] + Whole(pieces) == Whole(pieces);
    k := DrainFails(max, decode, Whole(pieces), []);
  }

  /** After a failed push the buffer is empty, or holds what followed the bad line. */
  lemma FailedPushLeaves<T, E>(max: nat, decode: Bytes -> Result<T, E>, buffer: Bytes, bytes: Bytes) returns (k: nat)
    requires Newline(buffer).None? && |buffer| <= max && Push(max, decode, buffer, bytes).0.Err?
    ensures var (s, rest) := (buffer + bytes, Push(max, decode, buffer, bytes).1);
            && FirstBad(max, decode, s, k) && Push(max, decode, buffer, bytes).0 == Err(ErrorAt(max, decode, s, k))
            && if Hopeless(max, buffer, bytes) then rest == [] else After(s, k, rest)
  {
    if Hopeless(max, buffer, bytes) { HopelessIsTooLarge(max, decode, buffer, bytes); }
    k := DrainFails(max, decode, buffer + bytes, []);
  }

  /**
  What the bridge keeps: everything from the first bad line on, or the fragment. An error that is
  `late`, a value that is no object, is found when the line has been taken out already.
  */
  function Unread<T, E>(max: nat, decode: Bytes -> Result<T, E>, late: E -> bool, s: Bytes): Bytes
    decreases |s|
  {
    match Newline(s)
    case None => s
    case Some(i) =>
      if i > max then s
      else match decode(s[..i])
        case Err(e) => if late(e) then s[i + 1..] else s
        case Ok(_) => Unread(max, decode, late, s[i + 1..])
  }

  /** How many lines are gone when line `k` is the first bad one. */
  function Gone<T, E>(max: nat, decode: Bytes -> Result<T, E>, late: E -> bool, s: Bytes, k: nat): nat
    requires FirstBad(max, decode, s, k)
  {
    var error := ErrorAt(max, decode, s, k);
    if error.Bad? && late(error.error) then k + 1 else k
  }

  /** Only the first `gone` lines are gone. */
  predicate Without(s: Bytes, gone: nat, rest: Bytes) {
    gone <= |Lines(s)| && Lines(rest) == Lines(s)[gone..] && Fragment(rest) == Fragment(s)
  }

  lemma WithoutCons(s: Bytes, i: nat, gone: nat, rest: Bytes)
    requires Newline(s) == Some(i) && Without(s[i + 1..], gone, rest)
    ensures Without(s, gone + 1, rest)
  {
    LinesCons(s, i, gone);
  }

  lemma WithoutFirst(s: Bytes, i: nat)
    requires Newline(s) == Some(i)
    ensures Without(s, 0, s) && Without(s, 1, s[i + 1..])
  {
    LinesCons(s, i, 0);
  }

  lemma UnreadAtOnce<T, E>(max: nat, decode: Bytes -> Result<T, E>, late: E -> bool, s: Bytes)
    requires FirstBad(max, decode, s, 0)
    ensures Without(s, Gone(max, decode, late, s, 0), Unread(max, decode, late, s))
  {
    if Newline(s).Some? {
      LinesCons(s, Newline(s).value, 0);
      WithoutFirst(s, Newline(s).value);
    }
  }

  /** A first line that is not the bad one is good. */
  lemma FirstIsGood<T, E>(max: nat, decode: Bytes -> Result<T, E>, s: Bytes, k: nat) returns (i: nat)
    requires FirstBad(max, decode, s, k) && k > 0
    ensures Newline(s) == Some(i) && i <= max && decode(s[..i]).Ok?
  {
    assert Lines(s) != [];
    i := Newline(s).value;
    LinesCons(s, i, 0);
    assert |Lines(s)[0]| <= max && decode(Lines(s)[0]).Ok?;
  }

  lemma UnreadCons<T, E>(max: nat, decode: Bytes -> Result<T, E>, late: E -> bool, s: Bytes, i: nat)
    requires Newline(s) == Some(i) && i <= max && decode(s[..i]).Ok?
    ensures Unread(max, decode, late, s) == Unread(max, decode, late, s[i + 1..])
  {
  }

  lemma GoneCons<T, E>(max: nat, decode: Bytes -> Result<T, E>, late: E -> bool, s: Bytes, k: nat, rest: Bytes)
    requires FirstBad(max, decode, s, k + 1) && FirstBad(max, decode, rest, k)
    requires ErrorAt(max, decode, s, k + 1) == ErrorAt(max, decode, rest, k)
    ensures Gone(max, decode, late, s, k + 1) == Gone(max, decode, late, rest, k) + 1
  {
  }

  lemma {:induction false} UnreadFromFirstBad<T, E>(
    max: nat, decode: Bytes -> Result<T, E>, late: E -> bool, s: Bytes, k: nat)
    requires FirstBad(max, decode, s, k)
    ensures Without(s, Gone(max, decode, late, s, k), Unread(max, decode, late, s))
    decreases k
  {
    if k == 0 {
      UnreadAtOnce(max, decode, late, s);
    } else {
      var i := FirstIsGood(max, decode, s, k);
      var rest := s[i + 1..];
      FirstBadCons(max, decode, s, i, k - 1);
      UnreadFromFirstBad(max, decode, late, rest, k - 1);
      UnreadCons(max, decode, late, s, i);
      GoneCons(max, decode, late, s, k - 1, rest);
      WithoutCons(s, i, Gone(max, decode, late, rest, k - 1), Unread(max, decode, late, rest));
    }
  }

  // Writing lines.

  function Encoded<T>(encode: T -> Bytes, values: seq<T>): Bytes {
    if values == [] then [] else encode(values[0]) + [NEWLINE] + Encoded(encode, values[1..])
  }

  /** Lines that `encode_line` writes come back as the values they were written from. */
  lemma {:induction false} EncodedComesBack<T, E>(max: nat, encode: T -> Bytes, decode: Bytes -> Result<T, E>, values: seq<T>)
    requires forall i | 0 <= i < |values| ::
               var line := encode(values[i]); |line| <= max && Newline(line).None? && decode(line) == Ok(values[i])
    ensures Good(max, decode, Encoded(encode, values))
    ensures Values(decode, Lines(Encoded(encode, values))) == values && Fragment(Encoded(encode, values)) == []
    decreases |values|
  {
    if values != [] {
      var line, rest := encode(values[0]), Encoded(encode, values[1..]);
      var s := line + [NEWLINE] + rest;
      FirstLine(line, rest);
      EncodedComesBack(max, encode, decode, values[1..]);
      GoodCons(max, decode, s, |line|);
      FirstLines(line, rest);
      ValuesOfCons(decode, line, Lines(rest));
    }
  }

  lemma FirstLines(line: Bytes, rest: Bytes)
    requires Newline(line).None?
    ensures var s := line + [NEWLINE] + rest;
            Lines(s) == [line] + Lines(rest) && Fragment(s) == Fragment(rest)
  {
    FirstLine(line, rest);
  }

  lemma FirstLine(line: Bytes, rest: Bytes)
    requires Newline(line).None?
    ensures var s := line + [NEWLINE] + rest;
            Newline(s) == Some(|line|) && s[..|line|] == line && s[|line| + 1..] == rest
  {
    var s := line + [NEWLINE] + rest;
    assert s[|line|] == NEWLINE && forall j | 0 <= j < |line| :: s[j] == line[j];
  }

  // The decoders.

  /** A stream that ends at a line break leaves no fragment, and no other does. */
  lemma {:induction false} FragmentEmptyIff(s: Bytes)
    ensures Fragment(s) == [] <==> s == [] || s[|s| - 1] == NEWLINE
    decreases |s|
  {
    if Newline(s).Some? {
      var rest := s[Newline(s).value + 1..];
      FragmentEmptyIff(rest);
      if rest != [] { assert rest[|rest| - 1] == s[|s| - 1]; }
    }
  }

  lemma {:induction false} FragmentGrows(s: Bytes, more: Bytes)
    ensures Fragment(s + more) == Fragment(Fragment(s) + more)
    decreases |s|
  {
    NewlineGrows(s, more);
    if Newline(s).Some? {
      var i := Newline(s).value;
      assert (s + more)[i + 1..] == s[i + 1..] + more;
      FragmentGrows(s[i + 1..], more);
    }
  }

  class RequestDecoder<T, E> {
    var buffer: Bytes
    const maximum: nat
    const decode: Bytes -> Result<T, E>
    /** Everything pushed so far, and whether every push succeeded. */
    ghost var received: Bytes
    ghost var sound: bool

    ghost predicate Valid()
      reads this
    {
      sound ==> buffer == Fragment(received)
    }

    constructor (maximum: nat, decode: Bytes -> Result<T, E>)
      ensures buffer == [] && this.maximum == maximum && this.decode == decode
      ensures Valid() && received == [] && sound
    {
      buffer, received, sound := [], [], true;
      this.maximum, this.decode := maximum, decode;
    }

    method PushBytes(bytes: Bytes) returns (r: Result<seq<T>, LineError<E>>)
      requires Valid()
      modifies this
      ensures (r, buffer) == Push(maximum, decode, old(buffer), bytes)
      ensures Valid() && received == old(received) + bytes && (sound <==> old(sound) && r.Ok?)
    {
      r := Decode(bytes);
      DrainIff(maximum, decode, old(buffer) + bytes, []);
      FragmentGrows(received, bytes);
      received, sound := received + bytes, sound && r.Ok?;
    }

    method Decode(bytes: Bytes) returns (r: Result<seq<T>, LineError<E>>)
      modifies this`buffer
      ensures (r, buffer) == Push(maximum, decode, old(buffer), bytes)
    {
      var room := if maximum > |buffer| then maximum - |buffer| else 0;
      if |buffer| + |bytes| > maximum && !exists i | 0 <= i < |bytes| && i < room + 1 :: bytes[i] == NEWLINE {
        buffer := [];
        return Err(LineTooLarge);
      }
      buffer := buffer + bytes;
      var decoded: seq<T> := [];
      while Newline(buffer).Some?
        invariant Drain(maximum, decode, old(buffer) + bytes, []) == Drain(maximum, decode, buffer, decoded)
        decreases |buffer|
      {
        var newline := Newline(buffer).value;
        var line := buffer[..newline];
        buffer := buffer[newline + 1..];
        if newline > maximum { return Err(LineTooLarge); }
        var request := decode(line);
        if request.Err? { return Err(Bad(request.error)); }
        decoded := decoded + [request.value];
      }
      if |buffer| > maximum {
        buffer := [];
        return Err(LineTooLarge);
      }
      return Ok(decoded);
    }

    /** Unless a push failed, complete exactly when the stream ended at a line break. */
    method Finish() returns (complete: bool)
      requires Valid()
      ensures complete <==> buffer == []
      ensures sound ==> (complete <==> received == [] || received[|received| - 1] == NEWLINE)
    {
      FragmentEmptyIff(received);
      complete := buffer == [];
    }
  }

  class BridgeLines<T, E> {
    var buffer: Bytes
    const limit: nat
    const decode: Bytes -> Result<T, E>
    const late: E -> bool

    constructor (limit: nat, decode: Bytes -> Result<T, E>, late: E -> bool)
      ensures buffer == [] && this.limit == limit && this.decode == decode && this.late == late
    {
      buffer := [];
      this.limit, this.decode, this.late := limit, decode, late;
    }

    /** An error keeps what was read; the caller gives the connection up. */
    method Feed(data: Bytes) returns (r: Result<seq<T>, LineError<E>>)
      modifies this`buffer
      ensures r == Drain(limit, decode, old(buffer) + data, []).0
      ensures r.Ok? ==> buffer == Drain(limit, decode, old(buffer) + data, []).1
      ensures buffer == Unread(limit, decode, late, old(buffer) + data)
    {
      buffer := buffer + data;
      var result: seq<T> := [];
      while Newline(buffer).Some?
        invariant Drain(limit, decode, old(buffer) + data, []) == Drain(limit, decode, buffer, result)
        invariant Unread(limit, decode, late, old(buffer) + data) == Unread(limit, decode, late, buffer)
        decreases |buffer|
      {
        var end := Newline(buffer).value;
        if end > limit { return Err(LineTooLarge); }
        var value := decode(buffer[..end]);
        if value.Err? && !late(value.error) { return Err(Bad(value.error)); }
        buffer := buffer[end + 1..];
        if value.Err? { return Err(Bad(value.error)); }
        result := result + [value.value];
      }
      if |buffer| > limit { return Err(LineTooLarge); }
      return Ok(result);
    }
  }
}
