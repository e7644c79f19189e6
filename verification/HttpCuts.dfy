/**
When does it matter how one HTTP answer is cut into reads? A cut is a sequence of reads of
one to `limit` bytes; the program's reads hold up to 4096. The exact condition speaks of the
stream's length, the end of its header block, the point where its content is known, and the
two size limits.
*/
module HttpCuts {
  import opened Common
  import opened Http

  predicate IsCut(pieces: seq<Bytes>, s: Bytes, limit: nat) {
    Whole(pieces) == s && forall i | 0 <= i < |pieces| :: 0 < |pieces[i]| <= limit
  }

  /** All ways to read the stream end the same. */
  ghost predicate CutsAgree(env: Env, s: Bytes, limit: nat) {
    forall one, two | IsCut(one, s, limit) && IsCut(two, s, limit) :: Exchange(env, [], one) == Exchange(env, [], two)
  }

  function Cap(env: Env): nat { MAX_HEADER_BYTES + env.maxDocument }

  /** The end of the blank line that ends the header block. */
  function BlankEnd(s: Bytes): Option<nat> {
    match Find(s, BLANK)
    case None => None
    case Some(i) => Some(i + 4)
  }

  /** What the whole stream says, whatever the limits. */
  function Plain(env: Env, s: Bytes): Result<Bytes, Error> { Final(Content(env, s, true)) }

  predicate Known(env: Env, s: Bytes, n: nat)
    requires n <= |s|
  {
    Content(env, s[..n], false) != Ok(None)
  }

  /** The length of the least front part that is a complete answer, or else of the whole stream. */
  function PointFrom(env: Env, s: Bytes, n: nat): (r: nat)
    requires n <= |s|
    ensures n <= r <= |s| && (r < |s| ==> Known(env, s, r)) && forall i | n <= i < r :: !Known(env, s, i)
    decreases |s| - n
  {
    if n == |s| || Known(env, s, n) then n else PointFrom(env, s, n + 1)
  }

  function Point(env: Env, s: Bytes): (r: nat)
    ensures r <= |s|
  {
    PointFrom(env, s, 0)
  }

  /** Some cut reads the content: it ends within the cap, and one read can jump from the header limit past the header. */
  predicate Readable(env: Env, s: Bytes, limit: nat) {
    BlankEnd(s).Some? && Point(env, s) <= Cap(env) && BlankEnd(s).value <= MAX_HEADER_BYTES + limit
  }

  /** Some cut runs into a limit: inside a long header block, or with bytes that follow the answer. */
  predicate Overrun(env: Env, s: Bytes, limit: nat) {
    BlankEnd(s).Some? &&
    (BlankEnd(s).value > MAX_HEADER_BYTES + 1 || (|s| > Cap(env) && Point(env, s) + limit > Cap(env) + 1))
  }

  // One read.

  /** At `n` bytes a limit stops the reading. */
  predicate Stops(env: Env, s: Bytes, n: nat) {
    n > Cap(env) || (n > MAX_HEADER_BYTES && !(BlankEnd(s).Some? && BlankEnd(s).value <= n))
  }

  /** At `n` bytes nothing happens. */
  predicate Silent(env: Env, s: Bytes, n: nat)
    requires n <= |s|
  {
    !Stops(env, s, n) && !Known(env, s, n)
  }

  lemma BlankWithin(s: Bytes, n: nat)
    requires n <= |s|
    ensures Find(s[..n], BLANK).Some? <==> BlankEnd(s).Some? && BlankEnd(s).value <= n
  {
    var front := s[..n];
    assert s == front + s[n..];
    if Find(front, BLANK).Some? {
      FindGrows(front, BLANK, s[n..]);
    } else if BlankEnd(s).Some? && BlankEnd(s).value <= n {
      var i := Find(s, BLANK).value;
      assert front[i..i + 4] == s[i..i + 4];
      assert At(front, BLANK, i);
    }
  }

  /** Once known, the content is what the whole stream says. */
  lemma KnownStands(env: Env, s: Bytes, n: nat, m: nat)
    requires n <= m <= |s| && Known(env, s, n)
    ensures Known(env, s, m) && Final(Content(env, s[..m], false)) == Plain(env, s)
  {
    assert s[..m] == s[..n] + s[n..m] && s == s[..n] + s[n..];
    VerdictStands(env, s[..n], s[n..m], false);
    VerdictStands(env, s[..n], s[n..], true);
  }

  lemma NotKnownBeforePoint(env: Env, s: Bytes, n: nat)
    requires n <= |s| && !Known(env, s, n)
    ensures n <= Point(env, s) && (n < |s| ==> n < Point(env, s))
  {
    var p := Point(env, s);
    if p < n || (p == n && n < |s|) { KnownStands(env, s, p, n); }
  }

  /** One read takes the stream from `a` to `b` bytes, and stops, answers or goes on. */
  lemma ReadTo(env: Env, s: Bytes, a: nat, b: nat, rest: seq<Bytes>)
    requires a <= b <= |s|
    ensures Exchange(env, s[..a], [s[a..b]] + rest) ==
            if Stops(env, s, b) then Err(ResponseTooLarge)
            else if Known(env, s, b) then Plain(env, s)
            else Exchange(env, s[..b], rest)
  {
    var pieces := [s[a..b]] + rest;
    assert s[..a] + pieces[0] == s[..b] && pieces[1..] == rest;
    BlankWithin(s, b);
    if Known(env, s, b) { KnownStands(env, s, b, b); }
  }

  lemma ReadEnds(env: Env, s: Bytes)
    ensures Exchange(env, s, []) ==
            if BlankEnd(s).None? && |s| > MAX_HEADER_BYTES then Err(ResponseTooLarge) else Plain(env, s)
  {
  }

  lemma FirstPiece(s: Bytes, a: nat, pieces: seq<Bytes>)
    requires a <= |s| && pieces != [] && Whole(pieces) == s[a..]
    ensures a + |pieces[0]| <= |s| && pieces == [s[a..a + |pieces[0]|]] + pieces[1..]
    ensures Whole(pieces[1..]) == s[a + |pieces[0]|..]
  {
    var b := a + |pieces[0]|;
    assert s[a..] == pieces[0] + Whole(pieces[1..]);
    assert s[a..b] == s[a..][..|pieces[0]|];
    assert s[b..] == s[a..][|pieces[0]|..];
  }

  // What any cut can end in.

  predicate Pieces(pieces: seq<Bytes>, limit: nat) { forall i | 0 <= i < |pieces| :: 0 < |pieces[i]| <= limit }

  /** A reading that has come to `a` bytes has not been stopped, so it jumped past a long header in one read. */
  predicate Reached(env: Env, s: Bytes, a: nat, limit: nat)
    requires a <= |s|
  {
    && a <= Cap(env) && !Known(env, s, a)
    && (a <= MAX_HEADER_BYTES
        || (BlankEnd(s).Some? && BlankEnd(s).value <= a && BlankEnd(s).value <= MAX_HEADER_BYTES + limit))
  }

  lemma ReachedNext(env: Env, s: Bytes, a: nat, b: nat, limit: nat)
    requires a < b <= |s| && b <= a + limit && Reached(env, s, a, limit) && !Stops(env, s, b)
    ensures !Known(env, s, b) ==> Reached(env, s, b, limit)
    ensures BlankEnd(s).Some? && b > MAX_HEADER_BYTES ==> BlankEnd(s).value <= MAX_HEADER_BYTES + limit
  {
  }

  /** What the stream says or the size error, and each needs its condition. */
  predicate EndsAs(env: Env, s: Bytes, r: Result<Bytes, Error>, limit: nat) {
    && (r == Plain(env, s) || r == Err(ResponseTooLarge))
    && (BlankEnd(s).Some? && r != Err(ResponseTooLarge) ==> Readable(env, s, limit))
    && (BlankEnd(s).Some? && r != Plain(env, s) ==> Overrun(env, s, limit))
    && (BlankEnd(s).None? ==> r == if |s| > MAX_HEADER_BYTES then Err(ResponseTooLarge) else Plain(env, s))
  }

  lemma AtTheEnd(env: Env, s: Bytes, limit: nat)
    requires Reached(env, s, |s|, limit)
    ensures EndsAs(env, s, Exchange(env, s, []), limit)
  {
    ReadEnds(env, s);
  }

  lemma AtAStop(env: Env, s: Bytes, a: nat, b: nat, limit: nat)
    requires a < b <= |s| && b <= a + limit && a < Point(env, s) && Stops(env, s, b)
    ensures EndsAs(env, s, Err(ResponseTooLarge), limit)
  {
  }

  lemma AtAnAnswer(env: Env, s: Bytes, b: nat, limit: nat)
    requires b <= |s| && Known(env, s, b) && !Stops(env, s, b)
    requires BlankEnd(s).Some? && b > MAX_HEADER_BYTES ==> BlankEnd(s).value <= MAX_HEADER_BYTES + limit
    ensures EndsAs(env, s, Plain(env, s), limit)
  {
    BlankWithin(s, b);
    PointBound(env, s, b);
  }

  lemma PointBound(env: Env, s: Bytes, b: nat)
    requires b <= |s| && Known(env, s, b)
    ensures Point(env, s) <= b
  {
  }

  lemma OneRead(env: Env, s: Bytes, a: nat, b: nat, rest: seq<Bytes>, limit: nat)
    requires a < b <= |s| && b <= a + limit && Reached(env, s, a, limit)
    requires Silent(env, s, b) ==> EndsAs(env, s, Exchange(env, s[..b], rest), limit)
    ensures EndsAs(env, s, Exchange(env, s[..a], [s[a..b]] + rest), limit)
    ensures Silent(env, s, b) ==> Reached(env, s, b, limit)
  {
    NotKnownBeforePoint(env, s, a);
    ReadTo(env, s, a, b, rest);
    if Stops(env, s, b) {
      AtAStop(env, s, a, b, limit);
    } else {
      ReachedNext(env, s, a, b, limit);
      if Known(env, s, b) { AtAnAnswer(env, s, b, limit); }
    }
  }

  lemma FirstRead(s: Bytes, a: nat, pieces: seq<Bytes>, limit: nat) returns (b: nat, rest: seq<Bytes>)
    requires a <= |s| && pieces != [] && Whole(pieces) == s[a..] && Pieces(pieces, limit)
    ensures a < b <= |s| && b <= a + limit && pieces == [s[a..b]] + rest
    ensures Whole(rest) == s[b..] && Pieces(rest, limit) && |rest| < |pieces|
  {
    FirstPiece(s, a, pieces);
    b, rest := a + |pieces[0]|, pieces[1..];
  }

  lemma {:induction false} Outcome(env: Env, s: Bytes, a: nat, pieces: seq<Bytes>, limit: nat)
    requires a <= |s| && Whole(pieces) == s[a..] && Pieces(pieces, limit) && Reached(env, s, a, limit)
    ensures EndsAs(env, s, Exchange(env, s[..a], pieces), limit)
    decreases |pieces|
  {
    if pieces == [] {
      assert a == |s| && s[..a] == s;
      AtTheEnd(env, s, limit);
    } else {
      var b, rest := FirstRead(s, a, pieces, limit);
      if Silent(env, s, b) {
        ReachedNext(env, s, a, b, limit);
        Outcome(env, s, b, rest, limit);
      }
      OneRead(env, s, a, b, rest, limit);
    }
  }

  /** Every cut ends as the conditions allow. */
  lemma CutEnds(env: Env, s: Bytes, pieces: seq<Bytes>, limit: nat)
    requires IsCut(pieces, s, limit)
    ensures EndsAs(env, s, Exchange(env, [], pieces), limit)
  {
    assert s[0..] == s && s[..0] == [];
    Outcome(env, s, 0, pieces, limit);
  }

  // Cuts that end either way.

  /** One byte at a time. */
  function Bytewise(s: Bytes): (r: seq<Bytes>)
    ensures |r| == |s| && forall i | 0 <= i < |r| :: |r[i]| == 1
  {
    seq(|s|, i requires 0 <= i < |s| => [s[i]])
  }

  lemma {:induction false} WholeConcat(a: seq<Bytes>, b: seq<Bytes>)
    ensures Whole(a + b) == Whole(a) + Whole(b)
    decreases |a|
  {
    if a == [] {
      assert a + b == b;
    } else {
      WholeConcat(a[1..], b);
      assert (a + b)[1..] == a[1..] + b;
    }
  }

  lemma {:induction false} BytewiseWhole(s: Bytes)
    ensures Whole(Bytewise(s)) == s
  {
    if s != [] {
      BytewiseWhole(s[1..]);
      assert Bytewise(s)[1..] == Bytewise(s[1..]);
    }
  }

  /** Byte by byte, with one read from `lo` to `hi`. */
  function Jump(s: Bytes, lo: nat, hi: nat): seq<Bytes>
    requires lo < hi <= |s|
  {
    Bytewise(s[..lo]) + ([s[lo..hi]] + Bytewise(s[hi..]))
  }

  lemma JumpIsCut(s: Bytes, lo: nat, hi: nat, limit: nat)
    requires lo < hi <= |s| && hi - lo <= limit
    ensures IsCut(Jump(s, lo, hi), s, limit)
  {
    BytewiseWhole(s[..lo]);
    BytewiseWhole(s[hi..]);
    WholeConcat(Bytewise(s[..lo]), [s[lo..hi]] + Bytewise(s[hi..]));
    WholeConcat([s[lo..hi]], Bytewise(s[hi..]));
    assert Whole([s[lo..hi]]) == s[lo..hi] by { assert [s[lo..hi]][1..] == []; }
    assert s == s[..lo] + (s[lo..hi] + s[hi..]);
  }

  /** Reading byte by byte where nothing happens. */
  lemma {:induction false} CreepTo(env: Env, s: Bytes, a: nat, b: nat, rest: seq<Bytes>)
    requires a <= b <= |s| && forall n | a < n <= b :: Silent(env, s, n)
    ensures Exchange(env, s[..a], Bytewise(s[a..b]) + rest) == Exchange(env, s[..b], rest)
    decreases b - a
  {
    if a == b {
      assert Bytewise(s[a..b]) + rest == rest;
    } else {
      BytewiseStep(s, a, b);
      assert [s[a..a + 1]] + Bytewise(s[a + 1..b]) + rest == [s[a..a + 1]] + (Bytewise(s[a + 1..b]) + rest);
      ReadTo(env, s, a, a + 1, Bytewise(s[a + 1..b]) + rest);
      assert Silent(env, s, a + 1);
      CreepTo(env, s, a + 1, b, rest);
    }
  }

  /** The jump decides. */
  lemma JumpDecides(env: Env, s: Bytes, lo: nat, hi: nat)
    requires lo < hi <= |s| && forall n | 0 < n <= lo :: Silent(env, s, n)
    ensures Stops(env, s, hi) ==> Exchange(env, [], Jump(s, lo, hi)) == Err(ResponseTooLarge)
    ensures !Stops(env, s, hi) && Known(env, s, hi) ==> Exchange(env, [], Jump(s, lo, hi)) == Plain(env, s)
  {
    CreepTo(env, s, 0, lo, [s[lo..hi]] + Bytewise(s[hi..]));
    assert s[..0] == [] && s[0..lo] == s[..lo];
    ReadTo(env, s, lo, hi, Bytewise(s[hi..]));
  }

  lemma BytewiseStep(s: Bytes, a: nat, b: nat)
    requires a < b <= |s|
    ensures Bytewise(s[a..b]) == [s[a..a + 1]] + Bytewise(s[a + 1..b])
  {
    var all, rest := Bytewise(s[a..b]), Bytewise(s[a + 1..b]);
    forall i | 0 <= i < |all| ensures all[i] == ([s[a..a + 1]] + rest)[i] {
      assert all[i] == [s[a + i]];
    }
  }

  /** Byte by byte through the whole stream, when nothing happens before the end. */
  lemma CreepThrough(env: Env, s: Bytes)
    requires forall n | 0 < n <= |s| :: Silent(env, s, n)
    ensures Exchange(env, [], Bytewise(s)) == Exchange(env, s, [])
  {
    CreepTo(env, s, 0, |s|, []);
    assert s[..0] == [] && s[0..|s|] == s && s[..|s|] == s && Bytewise(s) + [] == Bytewise(s);
  }

  /** A cut that reads the content. */
  lemma ReadableCut(env: Env, s: Bytes, limit: nat) returns (pieces: seq<Bytes>)
    requires limit > 0 && Readable(env, s, limit)
    ensures IsCut(pieces, s, limit) && Exchange(env, [], pieces) == Plain(env, s)
  {
    var h, p := BlankEnd(s).value, Point(env, s);
    PointAfterHeader(env, s);
    if h > MAX_HEADER_BYTES + 1 {
      pieces := JumpOverHeader(env, s, limit);
    } else if Known(env, s, p) {
      pieces := Jump(s, p - 1, p);
      JumpIsCut(s, p - 1, p, limit);
      JumpDecides(env, s, p - 1, p);
    } else {
      pieces := Bytewise(s);
      BytewiseWhole(s);
      CreepThroughPlain(env, s);
    }
  }

  lemma CreepThroughPlain(env: Env, s: Bytes)
    requires BlankEnd(s).Some? && BlankEnd(s).value <= MAX_HEADER_BYTES + 1
    requires Point(env, s) == |s| <= Cap(env) && !Known(env, s, |s|)
    ensures Exchange(env, [], Bytewise(s)) == Plain(env, s)
  {
    CreepThrough(env, s);
    ReadEnds(env, s);
  }

  /** One read from the header limit to the end of a long header, then byte by byte. */
  lemma JumpOverHeader(env: Env, s: Bytes, limit: nat) returns (pieces: seq<Bytes>)
    requires Readable(env, s, limit) && BlankEnd(s).value > MAX_HEADER_BYTES + 1
    ensures IsCut(pieces, s, limit) && Exchange(env, [], pieces) == Plain(env, s)
  {
    var h, p := BlankEnd(s).value, Point(env, s);
    PointAfterHeader(env, s);
    pieces := Jump(s, MAX_HEADER_BYTES, h);
    JumpIsCut(s, MAX_HEADER_BYTES, h, limit);
    if Known(env, s, h) {
      JumpDecides(env, s, MAX_HEADER_BYTES, h);
    } else {
      CreepTo(env, s, 0, MAX_HEADER_BYTES, [s[MAX_HEADER_BYTES..h]] + Bytewise(s[h..]));
      assert s[..0] == [] && s[0..MAX_HEADER_BYTES] == s[..MAX_HEADER_BYTES];
      ReadTo(env, s, MAX_HEADER_BYTES, h, Bytewise(s[h..]));
      CreepToPlain(env, s, h);
    }
  }

  /** After the header, byte by byte to the point. */
  lemma CreepToPlain(env: Env, s: Bytes, a: nat)
    requires BlankEnd(s).Some? && BlankEnd(s).value <= a <= |s| && !Known(env, s, a) && Point(env, s) <= Cap(env)
    ensures Exchange(env, s[..a], Bytewise(s[a..])) == Plain(env, s)
  {
    NotKnownBeforePoint(env, s, a);
    if Known(env, s, Point(env, s)) { CreepToPoint(env, s, a); } else { CreepToEnd(env, s, a); }
  }

  lemma CreepToPoint(env: Env, s: Bytes, a: nat)
    requires BlankEnd(s).Some? && BlankEnd(s).value <= a < Point(env, s) <= Cap(env) && Known(env, s, Point(env, s))
    ensures Exchange(env, s[..a], Bytewise(s[a..])) == Plain(env, s)
  {
    var p := Point(env, s);
    BytewiseTo(s, a, p);
    CreepTo(env, s, a, p - 1, [s[p - 1..p]] + Bytewise(s[p..]));
    ReadTo(env, s, p - 1, p, Bytewise(s[p..]));
  }

  lemma BytewiseTo(s: Bytes, a: nat, p: nat)
    requires a < p <= |s|
    ensures Bytewise(s[a..]) == Bytewise(s[a..p - 1]) + ([s[p - 1..p]] + Bytewise(s[p..]))
  {
    BytewiseSplit(s, a, p - 1);
    BytewiseStep(s, p - 1, |s|);
    assert s[p - 1..|s|] == s[p - 1..] && s[p..|s|] == s[p..];
  }

  lemma CreepToEnd(env: Env, s: Bytes, a: nat)
    requires BlankEnd(s).Some? && BlankEnd(s).value <= a <= |s| == Point(env, s) && |s| <= Cap(env)
    requires !Known(env, s, |s|)
    ensures Exchange(env, s[..a], Bytewise(s[a..])) == Plain(env, s)
  {
    CreepTo(env, s, a, |s|, []);
    assert s[a..|s|] == s[a..] && s[..|s|] == s && Bytewise(s[a..]) + [] == Bytewise(s[a..]);
    ReadEnds(env, s);
  }

  lemma BytewiseSplit(s: Bytes, a: nat, b: nat)
    requires a <= b <= |s|
    ensures Bytewise(s[a..]) == Bytewise(s[a..b]) + Bytewise(s[b..])
  {
    var all := Bytewise(s[a..]);
    forall i | 0 <= i < |all| ensures all[i] == (Bytewise(s[a..b]) + Bytewise(s[b..]))[i] {
      assert all[i] == [s[a + i]];
    }
  }

  /** A cut that ends in the size error inside a long header: one byte past the header limit. */
  lemma HeaderCut(env: Env, s: Bytes, limit: nat) returns (pieces: seq<Bytes>)
    requires limit > 0 && BlankEnd(s).Some? && BlankEnd(s).value > MAX_HEADER_BYTES + 1
    ensures IsCut(pieces, s, limit) && Exchange(env, [], pieces) == Err(ResponseTooLarge)
  {
    PointAfterHeader(env, s);
    pieces := Jump(s, MAX_HEADER_BYTES, MAX_HEADER_BYTES + 1);
    JumpIsCut(s, MAX_HEADER_BYTES, MAX_HEADER_BYTES + 1, limit);
    JumpDecides(env, s, MAX_HEADER_BYTES, MAX_HEADER_BYTES + 1);
  }

  /** A cut that ends in the size error after a complete answer: its last read brings bytes past the cap. */
  lemma TrailingCut(env: Env, s: Bytes, limit: nat) returns (pieces: seq<Bytes>)
    requires limit > 0 && BlankEnd(s).Some? && BlankEnd(s).value <= MAX_HEADER_BYTES + 1
    requires Point(env, s) <= Cap(env) < |s| && Point(env, s) + limit > Cap(env) + 1
    ensures IsCut(pieces, s, limit) && Exchange(env, [], pieces) == Err(ResponseTooLarge)
  {
    var p := Point(env, s);
    PointAfterHeader(env, s);
    pieces := Jump(s, p - 1, Cap(env) + 1);
    JumpIsCut(s, p - 1, Cap(env) + 1, limit);
    JumpDecides(env, s, p - 1, Cap(env) + 1);
  }

  // The condition.

  /**
  All cuts of a stream agree if and only if it has no header block, or says itself that it is too
  large, or cannot be read within the limits at all, or cannot run into them.
  */
  lemma CutsAgreeIff(env: Env, s: Bytes, limit: nat)
    requires limit > 0
    ensures CutsAgree(env, s, limit) <==>
            || BlankEnd(s).None?
            || Plain(env, s) == Err(ResponseTooLarge)
            || !Readable(env, s, limit)
            || !Overrun(env, s, limit)
  {
    if Readable(env, s, limit) && Overrun(env, s, limit) && Plain(env, s) != Err(ResponseTooLarge) {
      var one, two := CutsDisagree(env, s, limit);
      assert !CutsAgree(env, s, limit);
    } else {
      forall one, two | IsCut(one, s, limit) && IsCut(two, s, limit)
        ensures Exchange(env, [], one) == Exchange(env, [], two)
      {
        CutEnds(env, s, one, limit);
        CutEnds(env, s, two, limit);
      }
    }
  }

  /** Two readings of one stream: what it says, and the size error. */
  lemma CutsDisagree(env: Env, s: Bytes, limit: nat) returns (one: seq<Bytes>, two: seq<Bytes>)
    requires limit > 0 && Readable(env, s, limit) && Overrun(env, s, limit)
    ensures IsCut(one, s, limit) && IsCut(two, s, limit)
    ensures Exchange(env, [], one) == Plain(env, s) && Exchange(env, [], two) == Err(ResponseTooLarge)
  {
    one := ReadableCut(env, s, limit);
    if BlankEnd(s).value > MAX_HEADER_BYTES + 1 {
      two := HeaderCut(env, s, limit);
    } else {
      two := TrailingCut(env, s, limit);
    }
  }

  /** Nothing is known before the header block has ended. */
  lemma PointAfterHeader(env: Env, s: Bytes)
    requires BlankEnd(s).Some?
    ensures 4 <= BlankEnd(s).value <= Point(env, s)
  {
    var p := Point(env, s);
    BlankWithin(s, p);
    BlankWithin(s, |s|);
    assert s[..|s|] == s;
  }
}
