/**
The hand-written Bech32 checksum: a 30-bit register fed five bits at a time. A
register value is its bit string, so `(check & 0x1ffffff) << 5 ^ word` drops the
first five bits and appends the word.
*/
module Bech32 {
  import opened BitMath

  const GENERATORS: seq<nat> := [0x3b6a57b2, 0x26508e6d, 0x1ea119fa, 0x3d4233dd, 0x2a1462b3]

  predicate Register(c: Bits) { |c| == 30 }

  predicate WordBits(w: Bits) { |w| == 5 }

  predicate AllWordBits(ws: seq<Bits>) { forall i | 0 <= i < |ws| :: WordBits(ws[i]) }

  /** The generators as the program's array of registers. */
  predicate Table(gs: seq<Bits>) { |gs| == 5 && forall i | 0 <= i < 5 :: Register(gs[i]) }

  function Generators(): (gs: seq<Bits>)
    ensures Table(gs)
  {
    seq(5, i requires 0 <= i < 5 => ToBits(GENERATORS[i], 30))
  }

  /** Bit `j` of what the first `n` generators fold back; bit `i` of `top` selects generator `i`. */
  predicate FeedbackBit(gs: seq<Bits>, top: Bits, j: nat, n: nat)
    requires Table(gs) && WordBits(top) && j < 30 && n <= 5
  {
    n > 0 && (FeedbackBit(gs, top, j, n - 1) != (top[5 - n] && gs[n - 1][j]))
  }

  function Feedback(gs: seq<Bits>, top: Bits, n: nat): (r: Bits)
    requires Table(gs) && WordBits(top) && n <= 5
    ensures Register(r)
  {
    seq(30, j requires 0 <= j < 30 => FeedbackBit(gs, top, j, n))
  }

  /** One word into the register. */
  function Step(gs: seq<Bits>, c: Bits, w: Bits): (r: Bits)
    requires Table(gs) && Register(c) && WordBits(w)
    ensures Register(r)
  {
    Xor(c[5..] + w, Feedback(gs, c[..5], 5))
  }

  function Feed(gs: seq<Bits>, c: Bits, ws: seq<Bits>): (r: Bits)
    requires Table(gs) && Register(c) && AllWordBits(ws)
    ensures Register(r)
    decreases |ws|
  {
    if ws == [] then c else Feed(gs, Step(gs, c, ws[0]), ws[1..])
  }

  function WordsToBits(ws: seq<nat>): (r: seq<Bits>)
    ensures |r| == |ws| && AllWordBits(r) && forall i | 0 <= i < |ws| :: r[i] == ToBits(ws[i], 5)
  {
    seq(|ws|, i requires 0 <= i < |ws| => ToBits(ws[i], 5))
  }

  const ONE: Bits := Zeros(29) + [true]

  /** The checksum of a sequence of five-bit words. */
  function Polymod(ws: seq<nat>): Bits {
    Feed(Generators(), ONE, WordsToBits(ws))
  }

  /** The program's loops: one word at a time, then five conditional exclusive ors. */
  method PolymodLoop(ws: seq<nat>) returns (check: Bits)
    ensures check == Polymod(ws)
  {
    var gs := Generators();
    check := ONE;
    assert ws[0..] == ws;
    for k := 0 to |ws|
      invariant Register(check) && Feed(gs, check, WordsToBits(ws[k..])) == Polymod(ws)
    {
      assert WordsToBits(ws[k..])[0] == ToBits(ws[k], 5) && WordsToBits(ws[k..])[1..] == WordsToBits(ws[k + 1..]);
      check := StepLoop(gs, check, ToBits(ws[k], 5));
    }
  }

  method StepLoop(gs: seq<Bits>, c: Bits, w: Bits) returns (check: Bits)
    requires Table(gs) && Register(c) && WordBits(w)
    ensures check == Step(gs, c, w)
  {
    var top, shifted := c[..5], c[5..] + w;
    check := shifted;
    for i := 0 to 5
      invariant check == Xor(shifted, Feedback(gs, top, i))
    {
      if top[4 - i] { check := Xor(check, gs[i]); }
      FeedbackMore(gs, top, i);
    }
  }

  lemma FeedbackMore(gs: seq<Bits>, top: Bits, i: nat)
    requires Table(gs) && WordBits(top) && i < 5
    ensures Feedback(gs, top, i + 1) == if top[4 - i] then Xor(Feedback(gs, top, i), gs[i]) else Feedback(gs, top, i)
  {
  }

  lemma {:induction false} FeedbackBitLinear(gs: seq<Bits>, s: Bits, t: Bits, j: nat, n: nat)
    requires Table(gs) && WordBits(s) && WordBits(t) && j < 30 && n <= 5
    ensures FeedbackBit(gs, Xor(s, t), j, n) == (FeedbackBit(gs, s, j, n) != FeedbackBit(gs, t, j, n))
  {
    if n > 0 { FeedbackBitLinear(gs, s, t, j, n - 1); }
  }

  lemma FeedbackLinear(gs: seq<Bits>, s: Bits, t: Bits)
    requires Table(gs) && WordBits(s) && WordBits(t)
    ensures Feedback(gs, Xor(s, t), 5) == Xor(Feedback(gs, s, 5), Feedback(gs, t, 5))
  {
    forall j | 0 <= j < 30 ensures Feedback(gs, Xor(s, t), 5)[j] == Xor(Feedback(gs, s, 5), Feedback(gs, t, 5))[j] {
      FeedbackBitLinear(gs, s, t, j, 5);
    }
  }

  lemma XorSwap(a: Bits, b: Bits, c: Bits, d: Bits)
    requires |a| == |b| == |c| == |d|
    ensures Xor(Xor(a, b), Xor(c, d)) == Xor(Xor(a, c), Xor(b, d))
  {
  }

  /** The register is linear in its state and its input together. */
  lemma StepLinear(gs: seq<Bits>, a: Bits, b: Bits, v: Bits, w: Bits)
    requires Table(gs) && Register(a) && Register(b) && WordBits(v) && WordBits(w)
    ensures Step(gs, Xor(a, b), Xor(v, w)) == Xor(Step(gs, a, v), Step(gs, b, w))
  {
    var c := Xor(a, b);
    assert c[..5] == Xor(a[..5], b[..5]);
    FeedbackLinear(gs, a[..5], b[..5]);
    assert c[5..] + Xor(v, w) == Xor(a[5..] + v, b[5..] + w);
    XorSwap(a[5..] + v, b[5..] + w, Feedback(gs, a[..5], 5), Feedback(gs, b[..5], 5));
  }

  function XorEach(vs: seq<Bits>, ws: seq<Bits>): (r: seq<Bits>)
    requires AllWordBits(vs) && AllWordBits(ws) && |vs| == |ws|
    ensures |r| == |vs| && AllWordBits(r) && forall i | 0 <= i < |vs| :: r[i] == Xor(vs[i], ws[i])
  {
    seq(|vs|, i requires 0 <= i < |vs| => Xor(vs[i], ws[i]))
  }

  lemma {:induction false} FeedLinear(gs: seq<Bits>, a: Bits, b: Bits, vs: seq<Bits>, ws: seq<Bits>)
    requires Table(gs) && Register(a) && Register(b) && AllWordBits(vs) && AllWordBits(ws) && |vs| == |ws|
    ensures Feed(gs, Xor(a, b), XorEach(vs, ws)) == Xor(Feed(gs, a, vs), Feed(gs, b, ws))
    decreases |vs|
  {
    if vs != [] {
      StepLinear(gs, a, b, vs[0], ws[0]);
      assert XorEach(vs, ws)[1..] == XorEach(vs[1..], ws[1..]);
      FeedLinear(gs, Step(gs, a, vs[0]), Step(gs, b, ws[0]), vs[1..], ws[1..]);
    }
  }

  lemma {:induction false} FeedConcat(gs: seq<Bits>, c: Bits, vs: seq<Bits>, ws: seq<Bits>)
    requires Table(gs) && Register(c) && AllWordBits(vs) && AllWordBits(ws)
    ensures AllWordBits(vs + ws) && Feed(gs, c, vs + ws) == Feed(gs, Feed(gs, c, vs), ws)
    decreases |vs|
  {
    if vs == [] {
      assert vs + ws == ws;
    } else {
      assert (vs + ws)[0] == vs[0] && (vs + ws)[1..] == vs[1..] + ws;
      FeedConcat(gs, Step(gs, c, vs[0]), vs[1..], ws);
    }
  }

  lemma LastFive(v: nat)
    ensures ToBits(v, 5) == [v / 2 / 2 / 2 / 2 % 2 == 1, v / 2 / 2 / 2 % 2 == 1, v / 2 / 2 % 2 == 1, v / 2 % 2 == 1, v % 2 == 1]
  {
    var v1, v2, v3, v4 := v / 2, v / 2 / 2, v / 2 / 2 / 2, v / 2 / 2 / 2 / 2;
    assert ToBits(v4 / 2, 0) == [];
    assert ToBits(v4, 1) == [v4 % 2 == 1];
    assert ToBits(v3, 2) == ToBits(v4, 1) + [v3 % 2 == 1];
    assert ToBits(v2, 3) == ToBits(v3, 2) + [v2 % 2 == 1];
    assert ToBits(v1, 4) == ToBits(v2, 3) + [v1 % 2 == 1];
    assert ToBits(v, 5) == ToBits(v1, 4) + [v % 2 == 1];
  }

  /** Unfolding the feedback in one position. */
  lemma FeedbackAt(gs: seq<Bits>, top: Bits, j: nat)
    requires Table(gs) && WordBits(top) && j < 30
    ensures Feedback(gs, top, 5)[j] ==
            Selected(top, gs[0][j], gs[1][j], gs[2][j], gs[3][j], gs[4][j])
  {
    assert FeedbackBit(gs, top, j, 0) == false;
    assert FeedbackBit(gs, top, j, 1) == (FeedbackBit(gs, top, j, 0) != (top[4] && gs[0][j]));
    assert FeedbackBit(gs, top, j, 2) == (FeedbackBit(gs, top, j, 1) != (top[3] && gs[1][j]));
    assert FeedbackBit(gs, top, j, 3) == (FeedbackBit(gs, top, j, 2) != (top[2] && gs[2][j]));
    assert FeedbackBit(gs, top, j, 4) == (FeedbackBit(gs, top, j, 3) != (top[1] && gs[3][j]));
  }

  /** The last five bits of a generator are those of its number. */
  predicate EndsWith(g: Bits, bits: Bits)
    requires Register(g) && WordBits(bits)
  {
    g[25] == bits[0] && g[26] == bits[1] && g[27] == bits[2] && g[28] == bits[3] && g[29] == bits[4]
  }

  predicate Endings(gs: seq<Bits>)
    requires Table(gs)
  {
    && EndsWith(gs[0], [true, false, false, true, false])
    && EndsWith(gs[1], [false, true, true, false, true])
    && EndsWith(gs[2], [true, true, false, true, false])
    && EndsWith(gs[3], [true, true, true, false, true])
    && EndsWith(gs[4], [true, false, false, true, true])
  }

  lemma NumberEnds(v: nat, e: nat)
    requires Low(v, 5) == e
    ensures EndsWith(ToBits(v, 30), ToBits(e, 5))
  {
    BitsSplit(v, 25, 5);
    BitsOfLow(v, 5, 5);
    assert forall k | 0 <= k < 5 :: ToBits(v, 30)[25 + k] == ToBits(v, 5)[k];
  }

  lemma GeneratorEndings()
    ensures Endings(Generators())
  {
    LowFive(0x3b6a57b2, 0x12);
    LowFive(0x26508e6d, 0x0d);
    LowFive(0x1ea119fa, 0x1a);
    LowFive(0x3d4233dd, 0x1d);
    LowFive(0x2a1462b3, 0x13);
    LastFive(0x12);
    LastFive(0x0d);
    LastFive(0x1a);
    LastFive(0x1d);
    LastFive(0x13);
    GeneratorEnds(0, 0x12);
    GeneratorEnds(1, 0x0d);
    GeneratorEnds(2, 0x1a);
    GeneratorEnds(3, 0x1d);
    GeneratorEnds(4, 0x13);
  }

  lemma GeneratorEnds(i: nat, e: nat)
    requires i < 5 && Low(GENERATORS[i], 5) == e
    ensures EndsWith(Generators()[i], ToBits(e, 5))
  {
    NumberEnds(GENERATORS[i], e);
  }

  lemma LowFive(v: nat, e: nat)
    requires e < 32 && v % 32 == e
    ensures Low(v, 5) == e
  {
    var q := v / 32;
    assert v / 2 == 16 * q + e / 2 && v / 2 / 2 == 8 * q + e / 2 / 2;
    assert v / 2 / 2 / 2 == 4 * q + e / 2 / 2 / 2 && v / 2 / 2 / 2 / 2 == 2 * q + e / 2 / 2 / 2 / 2;
    assert Low(v / 2 / 2 / 2 / 2, 1) == e / 2 / 2 / 2 / 2;
    assert Low(v / 2 / 2 / 2, 2) == e / 2 / 2 / 2;
    assert Low(v / 2 / 2, 3) == e / 2 / 2;
    assert Low(v / 2, 4) == e / 2;
  }

  predicate Selected(top: Bits, b0: bool, b1: bool, b2: bool, b3: bool, b4: bool)
    requires WordBits(top)
  {
    ((((top[4] && b0) != (top[3] && b1)) != (top[2] && b2)) != (top[1] && b3)) != (top[0] && b4)
  }

  /** With these endings, the five low feedback bits determine the five selecting bits. */
  lemma FeedbackInjective(gs: seq<Bits>, top: Bits)
    requires Table(gs) && Endings(gs)
    requires WordBits(top) && forall j | 25 <= j < 30 :: !Feedback(gs, top, 5)[j]
    ensures top == Zeros(5)
  {
    FeedbackAt(gs, top, 25);
    FeedbackAt(gs, top, 26);
    FeedbackAt(gs, top, 27);
    FeedbackAt(gs, top, 28);
    FeedbackAt(gs, top, 29);
    assert top[3] == top[1];
    assert top == [top[0], top[1], top[2], top[3], top[4]];
  }

  lemma FeedbackOfZero(gs: seq<Bits>)
    requires Table(gs)
    ensures Feedback(gs, Zeros(5), 5) == Zeros(30)
  {
    forall j | 0 <= j < 30 ensures !Feedback(gs, Zeros(5), 5)[j] { FeedbackAt(gs, Zeros(5), j); }
  }

  /** A zero word moves a register to zero only from zero. */
  lemma StepKernel(gs: seq<Bits>, c: Bits)
    requires Table(gs) && Endings(gs) && Register(c) && Step(gs, c, Zeros(5)) == Zeros(30)
    ensures c == Zeros(30)
  {
    var shifted, back := c[5..] + Zeros(5), Feedback(gs, c[..5], 5);
    XorLaws(shifted, back);
    assert shifted == back;
    assert forall j | 25 <= j < 30 :: back[j] == shifted[j] == Zeros(5)[j - 25];
    FeedbackInjective(gs, c[..5]);
    FeedbackOfZero(gs);
    assert c == c[..5] + c[5..];
    forall i | 0 <= i < 30 ensures !c[i] {
      if i < 5 { assert c[i] == c[..5][i]; } else { assert c[i] == shifted[i - 5] == Zeros(30)[i - 5]; }
    }
  }

  function ZeroWords(n: nat): (r: seq<Bits>)
    ensures |r| == n && AllWordBits(r)
  {
    seq(n, _ => Zeros(5))
  }

  lemma {:induction false} ZeroWordsKernel(gs: seq<Bits>, c: Bits, n: nat)
    requires Table(gs) && Endings(gs) && Register(c) && Feed(gs, c, ZeroWords(n)) == Zeros(30)
    ensures c == Zeros(30)
    decreases n
  {
    if n > 0 {
      assert ZeroWords(n)[1..] == ZeroWords(n - 1);
      ZeroWordsKernel(gs, Step(gs, c, Zeros(5)), n - 1);
      StepKernel(gs, c);
    }
  }

  lemma StepOfSmall(gs: seq<Bits>, c: Bits, w: Bits)
    requires Table(gs) && Register(c) && WordBits(w) && c[..5] == Zeros(5)
    ensures Step(gs, c, w) == c[5..] + w
  {
    FeedbackOfZero(gs);
    XorLaws(c[5..] + w, Zeros(30));
  }

  // The six checksum words.

  /** The register cut into six words, as the encoder shifts and masks it. */
  function Chunks(c: Bits): (r: seq<Bits>)
    requires Register(c)
    ensures |r| == 6 && AllWordBits(r)
  {
    seq(6, i requires 0 <= i < 6 => c[5 * i..5 * i + 5])
  }

  function CheckWords(ws: seq<nat>): (r: seq<nat>)
    ensures |r| == 6
  {
    var sum := Xor(Polymod(ws + [0, 0, 0, 0, 0, 0]), ONE);
    seq(6, i requires 0 <= i < 6 => FromBits(Chunks(sum)[i]))
  }

  /** Words fed into an empty register just line up in it. */
  lemma {:induction false} FeedPacks(gs: seq<Bits>, c: Bits, k: nat)
    requires Table(gs) && Register(c) && k <= 6
    ensures Feed(gs, Zeros(30), Chunks(c)[..k]) == Zeros(30 - 5 * k) + c[..5 * k]
  {
    if k == 0 {
      assert Chunks(c)[..0] == [];
      assert Zeros(30) + c[..0] == Zeros(30);
    } else {
      var word := Chunks(c)[k - 1];
      FeedPacks(gs, c, k - 1);
      var before := Zeros(30 - 5 * (k - 1)) + c[..5 * (k - 1)];
      assert Chunks(c)[..k] == Chunks(c)[..k - 1] + [word];
      FeedConcat(gs, Zeros(30), Chunks(c)[..k - 1], [word]);
      assert Feed(gs, before, [word]) == Step(gs, before, word);
      assert before[..5] == Zeros(5);
      StepOfSmall(gs, before, word);
      assert c[..5 * k] == c[..5 * (k - 1)] + word;
      assert before[5..] == Zeros(30 - 5 * k) + c[..5 * (k - 1)];
      assert before[5..] + word == Zeros(30 - 5 * k) + c[..5 * k];
    }
  }

  lemma XorEachZeros(ws: seq<Bits>)
    requires AllWordBits(ws)
    ensures XorEach(ZeroWords(|ws|), ws) == ws
  {
    forall i | 0 <= i < |ws| ensures XorEach(ZeroWords(|ws|), ws)[i] == ws[i] {
      XorLaws(ws[i], Zeros(5));
    }
  }

  lemma FeedSix(gs: seq<Bits>, start: Bits, c: Bits)
    requires Table(gs) && Register(start) && Register(c)
    ensures Feed(gs, start, Chunks(c)) == Xor(Feed(gs, start, ZeroWords(6)), c)
  {
    FeedLinear(gs, start, Zeros(30), ZeroWords(6), Chunks(c));
    assert Xor(start, Zeros(30)) == start;
    XorEachZeros(Chunks(c));
    FeedPacks(gs, c, 6);
    assert Chunks(c)[..6] == Chunks(c);
    assert Zeros(0) + c[..30] == c;
  }

  lemma PolymodConcat(vs: seq<nat>, ws: seq<nat>)
    ensures Polymod(vs + ws) == Feed(Generators(), Polymod(vs), WordsToBits(ws))
  {
    assert WordsToBits(vs + ws) == WordsToBits(vs) + WordsToBits(ws);
    FeedConcat(Generators(), ONE, WordsToBits(vs), WordsToBits(ws));
  }

  lemma SixZeros()
    ensures WordsToBits([0, 0, 0, 0, 0, 0]) == ZeroWords(6)
  {
    ZeroBits(5);
  }

  /** What the encoder appends always verifies, for words of any number. */
  lemma ChecksumVerifies(ws: seq<nat>)
    ensures Polymod(ws + CheckWords(ws)) == ONE
    ensures forall w <- CheckWords(ws) :: w < 32
  {
    var gs, z := Generators(), Polymod(ws + [0, 0, 0, 0, 0, 0]);
    var sum := Xor(z, ONE);
    forall i | 0 <= i < 6 ensures WordsToBits(CheckWords(ws))[i] == Chunks(sum)[i] && CheckWords(ws)[i] < 32 {
      NumberRoundTrip(Chunks(sum)[i]);
      FromBitsBelow(Chunks(sum)[i]);
      assert Pow2(5) == 32;
    }
    assert WordsToBits(CheckWords(ws)) == Chunks(sum);
    PolymodConcat(ws, CheckWords(ws));
    PolymodConcat(ws, [0, 0, 0, 0, 0, 0]);
    SixZeros();
    FeedSix(gs, Polymod(ws), sum);
    XorLaws(z, ONE);
  }

  function Joined(bits: seq<Bits>): Bits
    requires |bits| == 6
  {
    bits[0] + bits[1] + bits[2] + bits[3] + bits[4] + bits[5]
  }

  lemma JoinedChunks(bits: seq<Bits>)
    requires |bits| == 6 && AllWordBits(bits)
    ensures Register(Joined(bits)) && Chunks(Joined(bits)) == bits
  {
    var c := Joined(bits);
    assert c[0..5] == bits[0] && c[5..10] == bits[1] && c[10..15] == bits[2];
    assert c[15..20] == bits[3] && c[20..25] == bits[4] && c[25..30] == bits[5];
  }

  /** And nothing else does: the six words that verify are unique. */
  lemma ChecksumUnique(ws: seq<nat>, check: seq<nat>)
    requires |check| == 6 && (forall w <- check :: w < 32) && Polymod(ws + check) == ONE
    ensures check == CheckWords(ws)
  {
    var gs, z := Generators(), Polymod(ws + [0, 0, 0, 0, 0, 0]);
    var c := Joined(WordsToBits(check));
    JoinedChunks(WordsToBits(check));
    PolymodConcat(ws, check);
    PolymodConcat(ws, [0, 0, 0, 0, 0, 0]);
    SixZeros();
    FeedSix(gs, Polymod(ws), c);
    XorLaws(z, c);
    assert c == Xor(z, ONE);
    forall i | 0 <= i < 6 ensures check[i] == CheckWords(ws)[i] {
      BitsRoundTrip(check[i], 5);
      assert check[i] in check && Pow2(5) == 32;
      LowOfSmall(check[i], 5);
    }
  }

  lemma {:induction false} FeedZeros(gs: seq<Bits>, n: nat)
    requires Table(gs)
    ensures Feed(gs, Zeros(30), ZeroWords(n)) == Zeros(30)
  {
    if n > 0 {
      StepOfSmall(gs, Zeros(30), Zeros(5));
      assert Zeros(30)[5..] + Zeros(5) == Zeros(30);
      assert ZeroWords(n)[1..] == ZeroWords(n - 1);
      FeedZeros(gs, n - 1);
    }
  }

  /** One non-zero word among zeros never brings an empty register back to empty. */
  lemma LoneWordIsSeen(gs: seq<Bits>, before: nat, d: Bits, after: nat)
    requires Table(gs) && Endings(gs) && WordBits(d) && d != Zeros(5)
    ensures AllWordBits(ZeroWords(before) + [d] + ZeroWords(after))
    ensures Feed(gs, Zeros(30), ZeroWords(before) + [d] + ZeroWords(after)) != Zeros(30)
  {
    FeedConcat(gs, Zeros(30), ZeroWords(before) + [d], ZeroWords(after));
    FeedConcat(gs, Zeros(30), ZeroWords(before), [d]);
    FeedZeros(gs, before);
    assert Feed(gs, Zeros(30), [d]) == Step(gs, Zeros(30), d);
    StepOfSmall(gs, Zeros(30), d);
    var c := Zeros(30)[5..] + d;
    assert c[25..] == d && Zeros(30)[25..] == Zeros(5);
    if Feed(gs, c, ZeroWords(after)) == Zeros(30) {
      ZeroWordsKernel(gs, c, after);
    }
  }

  lemma DifferentBits(v: nat, w: nat)
    requires v < 32 && w < 32 && v != w
    ensures Xor(ToBits(v, 5), ToBits(w, 5)) != Zeros(5)
  {
    assert Pow2(5) == 32;
    XorLaws(ToBits(v, 5), ToBits(w, 5));
    BitsRoundTrip(v, 5);
    BitsRoundTrip(w, 5);
    LowOfSmall(v, 5);
    LowOfSmall(w, 5);
  }

  /**
  Single-word errors are always detected, at every length: changing one word
  changes the checksum, so it can no longer be 1.
  */
  lemma SingleErrorDetected(ws: seq<nat>, p: nat, w: nat)
    requires p < |ws| && ws[p] < 32 && w < 32 && w != ws[p]
    ensures Polymod(ws[p := w]) != Polymod(ws)
  {
    var gs, a, b := Generators(), WordsToBits(ws), WordsToBits(ws[p := w]);
    var d := Xor(a[p], b[p]);
    DifferentBits(ws[p], w);
    GeneratorEndings();
    FeedLinear(gs, ONE, ONE, a, b);
    XorLaws(ONE, ONE);
    var n := |ws| - p - 1;
    assert XorEach(a, b) == ZeroWords(p) + [d] + ZeroWords(n) by {
      forall i | 0 <= i < |ws| && i != p ensures XorEach(a, b)[i] == Zeros(5) { XorLaws(a[i], b[i]); }
    }
    LoneWordIsSeen(gs, p, d, n);
    XorLaws(Polymod(ws), Polymod(ws[p := w]));
  }

  /** A valid word sequence is not valid without its last word. */
  lemma LastWordNeeded(ws: seq<nat>, w: nat)
    requires Polymod(ws) == ONE
    ensures Polymod(ws + [w]) != ONE
  {
    var gs, bits := Generators(), ToBits(w, 5);
    PolymodConcat(ws, [w]);
    assert WordsToBits([w]) == [bits] && [bits][1..] == [];
    assert Polymod(ws + [w]) == Step(gs, ONE, bits);
    assert ONE[..5] == Zeros(5);
    StepOfSmall(gs, ONE, bits);
    assert (ONE[5..] + bits)[24] && !ONE[24];
  }
}
