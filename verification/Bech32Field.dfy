/**
The Bech32 checksum as its specification, BIP 173, gives it: the remainder of a polynomial
over the field of 32 elements. Field elements are five-bit vectors, polynomials sequences of
them with the highest power first, and the register is six coefficients.
*/
module Bech32Field {
  import opened BitMath
  import opened Bech32

  // The field: bit strings modulo x^5 + x^3 + 1.

  function Elem(b: Bits): bv5
    requires WordBits(b)
  {
    (if b[0] then 16 else 0) ^ (if b[1] then 8 else 0) ^ (if b[2] then 4 else 0) ^ (if b[3] then 2 else 0)
    ^ (if b[4] then 1 else 0)
  }

  lemma ElemXor(a: Bits, b: Bits)
    requires WordBits(a) && WordBits(b)
    ensures Elem(Xor(a, b)) == Elem(a) ^ Elem(b)
  {
  }

  /** Times x. */
  function Double(a: bv5): bv5 { (a << 1) ^ (if a & 16 != 0 then 9 else 0) }

  function Times(a: bv5, b: bv5): bv5 {
    (if a & 1 != 0 then b else 0) ^ (if a & 2 != 0 then Double(b) else 0)
    ^ (if a & 4 != 0 then Double(Double(b)) else 0) ^ (if a & 8 != 0 then Double(Double(Double(b))) else 0)
    ^ (if a & 16 != 0 then Double(Double(Double(Double(b)))) else 0)
  }

  /** The generator is x^6 and these, from x^5 down. */
  const GENERATOR: seq<bv5> := [29, 22, 20, 21, 29, 18]

  /** Its coefficients, the leading one included. */
  function Coefficient(j: nat): bv5
    requires j <= 6
  {
    if j == 0 then 1 else GENERATOR[j - 1]
  }

  // The program's table holds the multiples of the generator by 1, x, .., x^4.

  lemma BitsOfWord(d: nat)
    requires d < 32
    ensures ToBits(d, 5) == [d / 16 % 2 == 1, d / 8 % 2 == 1, d / 4 % 2 == 1, d / 2 % 2 == 1, d % 2 == 1]
  {
    assert ToBits(d / 2 / 2 / 2 / 2 / 2, 0) == [];
    assert ToBits(d / 2 / 2 / 2 / 2, 1) == [d / 2 / 2 / 2 / 2 % 2 == 1];
    assert ToBits(d / 2 / 2 / 2, 2) == [d / 2 / 2 / 2 / 2 % 2 == 1, d / 2 / 2 / 2 % 2 == 1];
    assert d / 2 / 2 == d / 4 && d / 2 / 2 / 2 == d / 8 && d / 2 / 2 / 2 / 2 == d / 16;
    assert ToBits(d / 2 / 2, 3) == [d / 16 % 2 == 1, d / 8 % 2 == 1, d / 4 % 2 == 1];
    assert ToBits(d / 2, 4) == [d / 16 % 2 == 1, d / 8 % 2 == 1, d / 4 % 2 == 1, d / 2 % 2 == 1];
  }

  lemma ShiftedFive(a: nat, d: nat)
    requires d < 32
    ensures Shr(32 * a + d, 5) == a && Low(32 * a + d, 5) == d
  {
    assert Pow2(5) == 32;
    assert Shl(a, 1) == 2 * a && Shl(a, 2) == 4 * a;
    assert Shl(a, 3) == 8 * a && Shl(a, 4) == 16 * a;
    Reassemble(a, d, 5);
  }

  /** Writing a word behind a number writes its bits behind. */
  lemma AppendWord(a: nat, d: nat, k: nat)
    requires d < 32
    ensures ToBits(32 * a + d, k + 5) == ToBits(a, k) + ToBits(d, 5)
  {
    ShiftedFive(a, d);
    BitsSplit(32 * a + d, k, 5);
    BitsOfLow(32 * a + d, 5, 5);
  }

  /** Word `j` of a register. */
  function Word(c: Bits, j: nat): (r: Bits)
    requires Register(c) && j < 6
    ensures WordBits(r)
  {
    c[5 * j..5 * j + 5]
  }

  /** The number that digits to the base 32 write. */
  function Base32(ds: seq<nat>): nat { if ds == [] then 0 else 32 * Base32(ds[..|ds| - 1]) + ds[|ds| - 1] }

  predicate Below32(ds: seq<nat>) { forall i | 0 <= i < |ds| :: ds[i] < 32 }

  lemma {:induction false} WordsOfNumber(ds: seq<nat>, j: nat)
    requires Below32(ds) && j < |ds|
    ensures ToBits(Base32(ds), 5 * |ds|)[5 * j..5 * j + 5] == ToBits(ds[j], 5)
    decreases |ds|
  {
    var front, last := ds[..|ds| - 1], ds[|ds| - 1];
    AppendWord(Base32(front), last, 5 * |front|);
    var high, bits := ToBits(Base32(front), 5 * |front|), ToBits(Base32(ds), 5 * |ds|);
    assert bits == high + ToBits(last, 5);
    WordOfTwo(high, ToBits(last, 5), 5 * j);
    if j < |front| { WordsOfNumber(front, j); }
  }

  lemma WordOfTwo(a: Bits, b: Bits, i: nat)
    requires |b| == 5 && (i + 5 <= |a| || i == |a|)
    ensures (a + b)[i..i + 5] == if i + 5 <= |a| then a[i..i + 5] else b
  {
  }

  lemma SixDigits(a: nat, b: nat, c: nat, d: nat, e: nat, f: nat)
    ensures Base32([a, b, c, d, e, f]) == 32 * (32 * (32 * (32 * (32 * a + b) + c) + d) + e) + f
  {
    var ds := [a, b, c, d, e, f];
    assert ds[..5] == [a, b, c, d, e] && ds[..5][..4] == [a, b, c, d] && [a, b, c, d][..3] == [a, b, c];
    assert [a, b, c][..2] == [a, b] && [a, b][..1] == [a] && [a][..0] == [];
    assert Base32([a]) == a && Base32([a, b]) == 32 * a + b && Base32([a, b, c]) == 32 * (32 * a + b) + c;
    assert Base32([a, b, c, d]) == 32 * Base32([a, b, c]) + d && Base32([a, b, c, d, e]) == 32 * Base32([a, b, c, d]) + e;
  }

  function Power(i: nat): bv5
    requires i < 5
  {
    if i == 0 then 1 else if i == 1 then 2 else if i == 2 then 4 else if i == 3 then 8 else 16
  }

  predicate TableWord(i: nat, j: nat)
    requires i < 5 && j < 6
  {
    Elem(Word(Generators()[i], j)) == Times(Power(i), GENERATOR[j])
  }

  lemma TableRow(i: nat, ds: seq<nat>)
    requires i < 5 && |ds| == 6 && (forall j | 0 <= j < 6 :: ds[j] < 32) && GENERATORS[i] == Base32(ds)
    ensures forall j | 0 <= j < 6 :: Word(Generators()[i], j) == ToBits(ds[j], 5)
  {
    forall j | 0 <= j < 6 ensures Word(Generators()[i], j) == ToBits(ds[j], 5) { WordsOfNumber(ds, j); }
  }

  lemma ElemOf(d: nat, e: bv5)
    requires d < 32 && e == Elem([d / 16 % 2 == 1, d / 8 % 2 == 1, d / 4 % 2 == 1, d / 2 % 2 == 1, d % 2 == 1])
    ensures Elem(ToBits(d, 5)) == e
  {
    BitsOfWord(d);
  }

  /** The digits of each generator. */
  function Row(i: nat): (r: seq<nat>)
    requires i < 5
    ensures |r| == 6 && forall j | 0 <= j < 6 :: r[j] < 32
  {
    if i == 0 then [29, 22, 20, 21, 29, 18]
    else if i == 1 then [19, 5, 1, 3, 19, 13]
    else if i == 2 then [15, 10, 2, 6, 15, 26]
    else if i == 3 then [30, 20, 4, 12, 30, 29]
    else [21, 1, 8, 24, 21, 19]
  }

  lemma RowIsGenerator(i: nat)
    requires i < 5
    ensures GENERATORS[i] == Base32(Row(i))
  {
    SixDigits(29, 22, 20, 21, 29, 18);
    SixDigits(19, 5, 1, 3, 19, 13);
    SixDigits(15, 10, 2, 6, 15, 26);
    SixDigits(30, 20, 4, 12, 30, 29);
    SixDigits(21, 1, 8, 24, 21, 19);
  }

  lemma CheckWord(i: nat, j: nat, d: nat, e: bv5)
    requires i < 5 && j < 6 && Row(i)[j] == d && e == Times(Power(i), GENERATOR[j])
    requires e == Elem([d / 16 % 2 == 1, d / 8 % 2 == 1, d / 4 % 2 == 1, d / 2 % 2 == 1, d % 2 == 1])
    ensures TableWord(i, j)
  {
    RowIsGenerator(i);
    TableRow(i, Row(i));
    ElemOf(d, e);
  }

  lemma CheckRow0(j: nat)
    requires j < 6
    ensures TableWord(0, j)
  {
    if j == 0 { CheckWord(0, 0, 29, 29); }
    else if j == 1 { CheckWord(0, 1, 22, 22); }
    else if j == 2 { CheckWord(0, 2, 20, 20); }
    else if j == 3 { CheckWord(0, 3, 21, 21); }
    else if j == 4 { CheckWord(0, 4, 29, 29); }
    else { CheckWord(0, 5, 18, 18); }
  }

  lemma CheckRow1(j: nat)
    requires j < 6
    ensures TableWord(1, j)
  {
    if j == 0 { CheckWord(1, 0, 19, 19); }
    else if j == 1 { CheckWord(1, 1, 5, 5); }
    else if j == 2 { CheckWord(1, 2, 1, 1); }
    else if j == 3 { CheckWord(1, 3, 3, 3); }
    else if j == 4 { CheckWord(1, 4, 19, 19); }
    else { CheckWord(1, 5, 13, 13); }
  }

  lemma CheckRow2(j: nat)
    requires j < 6
    ensures TableWord(2, j)
  {
    if j == 0 { CheckWord(2, 0, 15, 15); }
    else if j == 1 { CheckWord(2, 1, 10, 10); }
    else if j == 2 { CheckWord(2, 2, 2, 2); }
    else if j == 3 { CheckWord(2, 3, 6, 6); }
    else if j == 4 { CheckWord(2, 4, 15, 15); }
    else { CheckWord(2, 5, 26, 26); }
  }

  lemma CheckRow3(j: nat)
    requires j < 6
    ensures TableWord(3, j)
  {
    if j == 0 { CheckWord(3, 0, 30, 30); }
    else if j == 1 { CheckWord(3, 1, 20, 20); }
    else if j == 2 { CheckWord(3, 2, 4, 4); }
    else if j == 3 { CheckWord(3, 3, 12, 12); }
    else if j == 4 { CheckWord(3, 4, 30, 30); }
    else { CheckWord(3, 5, 29, 29); }
  }

  lemma CheckRow4(j: nat)
    requires j < 6
    ensures TableWord(4, j)
  {
    if j == 0 { CheckWord(4, 0, 21, 21); }
    else if j == 1 { CheckWord(4, 1, 1, 1); }
    else if j == 2 { CheckWord(4, 2, 8, 8); }
    else if j == 3 { CheckWord(4, 3, 24, 24); }
    else if j == 4 { CheckWord(4, 4, 21, 21); }
    else { CheckWord(4, 5, 19, 19); }
  }

  /** Every word of the table is that multiple of that coefficient. */
  lemma TableIsMultiples(i: nat, j: nat)
    requires i < 5 && j < 6
    ensures TableWord(i, j)
  {
    if i == 0 { CheckRow0(j); } else if i == 1 { CheckRow1(j); } else if i == 2 { CheckRow2(j); }
    else if i == 3 { CheckRow3(j); } else { CheckRow4(j); }
  }

  // One step of the register, in the field.

  /** The sum of the first `n` of these that `top` selects. */
  function Folded(top: Bits, ms: seq<bv5>, n: nat): bv5
    requires WordBits(top) && |ms| == 5 && n <= 5
  {
    if n == 0 then 0 else Folded(top, ms, n - 1) ^ (if top[5 - n] then ms[n - 1] else 0)
  }

  /** The multiples of a coefficient by the powers of x. */
  function Multiples(g: bv5): (r: seq<bv5>)
    ensures |r| == 5
  {
    [Times(1, g), Times(2, g), Times(4, g), Times(8, g), Times(16, g)]
  }

  lemma ZeroWord(b: Bits)
    requires WordBits(b) && forall k | 0 <= k < 5 :: !b[k]
    ensures Elem(b) == 0
  {
  }

  lemma XorWord(a: Bits, b: Bits, j: nat)
    requires Register(a) && Register(b) && j < 6
    ensures Word(Xor(a, b), j) == Xor(Word(a, j), Word(b, j))
  {
  }

  lemma {:induction false} FeedbackWord(top: Bits, j: nat, ms: seq<bv5>, n: nat)
    requires WordBits(top) && j < 6 && n <= 5
    requires |ms| == 5 && forall i | 0 <= i < 5 :: Elem(Word(Generators()[i], j)) == ms[i]
    ensures Elem(Word(Feedback(Generators(), top, n), j)) == Folded(top, ms, n)
  {
    var gs := Generators();
    if n == 0 {
      ZeroWord(Word(Feedback(gs, top, 0), j));
    } else {
      FeedbackWord(top, j, ms, n - 1);
      FeedbackMore(gs, top, n - 1);
      if top[5 - n] {
        XorWord(Feedback(gs, top, n - 1), gs[n - 1], j);
        ElemXor(Word(Feedback(gs, top, n - 1), j), Word(gs[n - 1], j));
      }
    }
  }

  lemma TableColumn(j: nat)
    requires j < 6
    ensures forall i | 0 <= i < 5 :: Elem(Word(Generators()[i], j)) == Multiples(GENERATOR[j])[i]
  {
    forall i | 0 <= i < 5 ensures Elem(Word(Generators()[i], j)) == Multiples(GENERATOR[j])[i] { TableIsMultiples(i, j); }
  }

  lemma ElemBits(b: Bits)
    requires WordBits(b)
    ensures b[0] <==> Elem(b) & 16 != 0
    ensures b[1] <==> Elem(b) & 8 != 0
    ensures b[2] <==> Elem(b) & 4 != 0
    ensures b[3] <==> Elem(b) & 2 != 0
    ensures b[4] <==> Elem(b) & 1 != 0
  {
  }

  lemma TimesPower(b: bv5)
    ensures Times(1, b) == b && Times(2, b) == Double(b) && Times(4, b) == Double(Double(b))
    ensures Times(8, b) == Double(Double(Double(b))) && Times(16, b) == Double(Double(Double(Double(b))))
  {
  }

  function Pick(b: bool, m: bv5): bv5 { if b then m else 0 }

  lemma FoldOne(top: Bits, ms: seq<bv5>, n: nat)
    requires WordBits(top) && |ms| == 5 && 0 < n <= 5
    ensures Folded(top, ms, n) == Folded(top, ms, n - 1) ^ Pick(top[5 - n], ms[n - 1])
  {
  }

  lemma XorFive(a: bv5, b: bv5, c: bv5, d: bv5, e: bv5)
    ensures ((((0 ^ a) ^ b) ^ c) ^ d) ^ e == a ^ b ^ c ^ d ^ e
  {
  }

  lemma FoldedFive(top: Bits, ms: seq<bv5>)
    requires WordBits(top) && |ms| == 5
    ensures Folded(top, ms, 5)
         == Pick(top[4], ms[0]) ^ Pick(top[3], ms[1]) ^ Pick(top[2], ms[2]) ^ Pick(top[1], ms[3]) ^ Pick(top[0], ms[4])
  {
    FoldOne(top, ms, 1);
    FoldOne(top, ms, 2);
    FoldOne(top, ms, 3);
    FoldOne(top, ms, 4);
    FoldOne(top, ms, 5);
    XorFive(Pick(top[4], ms[0]), Pick(top[3], ms[1]), Pick(top[2], ms[2]), Pick(top[1], ms[3]), Pick(top[0], ms[4]));
  }

  lemma ProductOfBits(top: Bits, g: bv5)
    requires WordBits(top)
    ensures Times(Elem(top), g)
         == Pick(top[4], Times(1, g)) ^ Pick(top[3], Times(2, g)) ^ Pick(top[2], Times(4, g))
            ^ Pick(top[1], Times(8, g)) ^ Pick(top[0], Times(16, g))
  {
    ElemBits(top);
    TimesPower(g);
  }

  lemma FoldedMultiples(top: Bits, g: bv5)
    requires WordBits(top)
    ensures Folded(top, Multiples(g), 5) == Times(Elem(top), g)
  {
    FoldedFive(top, Multiples(g));
    ProductOfBits(top, g);
  }

  /** The feedback is the leading coefficient's multiple of the generator. */
  lemma FeedbackIsProduct(top: Bits, j: nat)
    requires WordBits(top) && j < 6
    ensures Elem(Word(Feedback(Generators(), top, 5), j)) == Times(Elem(top), GENERATOR[j])
  {
    TableColumn(j);
    FeedbackWord(top, j, Multiples(GENERATOR[j]), 5);
    FoldedMultiples(top, GENERATOR[j]);
  }

  /** The register as six coefficients. */
  function Words(c: Bits): (r: seq<bv5>)
    requires Register(c)
    ensures |r| == 6
  {
    seq(6, j requires 0 <= j < 6 => Elem(Word(c, j)))
  }

  lemma ShiftedWord(c: Bits, w: Bits, j: nat)
    requires Register(c) && WordBits(w) && j < 6
    ensures Word(c[5..] + w, j) == if j < 5 then Word(c, j + 1) else w
  {
  }

  /** Multiply by x, add the word, subtract the leading coefficient's multiple of the generator. */
  lemma StepInField(c: Bits, w: Bits, j: nat)
    requires Register(c) && WordBits(w) && j < 6
    ensures Words(Step(Generators(), c, w))[j]
         == (if j < 5 then Words(c)[j + 1] else Elem(w)) ^ Times(Words(c)[0], GENERATOR[j])
  {
    var shifted, folded := c[5..] + w, Feedback(Generators(), c[..5], 5);
    XorWord(shifted, folded, j);
    ElemXor(Word(shifted, j), Word(folded, j));
    ShiftedWord(c, w, j);
    FeedbackIsProduct(c[..5], j);
    assert Word(c, 0) == c[..5];
  }

  // Division.

  function At(q: seq<bv5>, i: int): bv5 { if 0 <= i < |q| then q[i] else 0 }

  /** The sum of the first `n` products that make up coefficient `k` of `q` times the generator. */
  function Sum(q: seq<bv5>, k: int, n: nat): bv5
    requires n <= 7
  {
    if n == 0 then 0 else Sum(q, k, n - 1) ^ Times(At(q, k - (n - 1)), Coefficient(n - 1))
  }

  /** Coefficient `k` of the product of `q` and the generator, counted from the highest power. */
  function Product(q: seq<bv5>, k: int): bv5 { Sum(q, k, 7) }

  /** A one and the words, as a polynomial of at least six coefficients. */
  function Dividend(ws: seq<bv5>): (r: seq<bv5>)
    ensures |r| == 6 + |ws|
  {
    [0, 0, 0, 0, 0, 1] + ws
  }

  predicate DividedAt(ws: seq<bv5>, q: seq<bv5>, r: seq<bv5>, k: nat)
    requires k < 6 + |ws|
  {
    Dividend(ws)[k] == Product(q, k) ^ At(r, k - |ws|)
  }

  /** The dividend is the quotient times the generator, plus the remainder. */
  predicate Divides(ws: seq<bv5>, q: seq<bv5>, r: seq<bv5>) {
    && |q| == |ws| && |r| == 6
    && forall k | 0 <= k < 6 + |ws| :: DividedAt(ws, q, r, k)
  }

  lemma TimesUnits(a: bv5)
    ensures Times(0, a) == 0 && Times(a, 1) == a
  {
  }

  lemma AtMore(q: seq<bv5>, lead: bv5, i: int)
    ensures At(q + [lead], i) == if i == |q| then lead else At(q, i)
  {
  }

  /** One more quotient coefficient adds its multiple of the generator. */
  lemma {:induction false} SumMore(q: seq<bv5>, lead: bv5, k: int, n: nat)
    requires n <= 7
    ensures var m := k - |q|;
            Sum(q + [lead], k, n) == Sum(q, k, n) ^ (if 0 <= m < n then Times(lead, Coefficient(m)) else 0)
  {
    if n > 0 {
      SumMore(q, lead, k, n - 1);
      AtMore(q, lead, k - (n - 1));
      TimesUnits(Coefficient(n - 1));
    }
  }

  lemma {:induction false} SumBeyond(q: seq<bv5>, k: int, n: nat)
    requires n <= 7 && k >= |q| + 6
    ensures Sum(q, k, n) == 0
  {
    if n > 0 {
      SumBeyond(q, k, n - 1);
      TimesUnits(Coefficient(n - 1));
    }
  }

  /** The register after the step, in coefficients. */
  predicate Steps(r: seq<bv5>, w: bv5, r': seq<bv5>) {
    |r| == |r'| == 6 && forall j | 0 <= j < 6 :: r'[j] == (if j < 5 then r[j + 1] else w) ^ Times(r[0], GENERATOR[j])
  }

  lemma DividendMore(ws: seq<bv5>, w: bv5, k: nat)
    requires k < 7 + |ws|
    ensures Dividend(ws + [w])[k] == if k < 6 + |ws| then Dividend(ws)[k] else w
  {
  }

  /** The sum of quotient part and remainder stays the same where the new leading term is taken up. */
  lemma Carries(p: bv5, d: bv5, before: bv5, t: bv5, after: bv5)
    requires d == p ^ before && after == before ^ t
    ensures d == (p ^ t) ^ after
  {
  }

  lemma DivideBefore(ws: seq<bv5>, q: seq<bv5>, r: seq<bv5>, w: bv5, r': seq<bv5>, k: nat)
    requires Divides(ws, q, r) && Steps(r, w, r') && k < |ws|
    ensures Dividend(ws + [w])[k] == Product(q + [r[0]], k) ^ At(r', k - |ws| - 1)
  {
    DividendMore(ws, w, k);
    SumMore(q, r[0], k, 7);
    assert DividedAt(ws, q, r, k);
  }

  lemma DivideLead(ws: seq<bv5>, q: seq<bv5>, r: seq<bv5>, w: bv5, r': seq<bv5>)
    requires Divides(ws, q, r) && Steps(r, w, r')
    ensures Dividend(ws + [w])[|ws|] == Product(q + [r[0]], |ws|) ^ At(r', -1)
  {
    var k := |ws|;
    DividendMore(ws, w, k);
    SumMore(q, r[0], k, 7);
    TimesUnits(r[0]);
    assert DividedAt(ws, q, r, k);
    Carries(Product(q, k), Dividend(ws)[k], r[0], r[0], 0);
  }

  lemma NewTerm(q: seq<bv5>, lead: bv5, m: nat)
    requires 1 <= m <= 6
    ensures Product(q + [lead], |q| + m) == Product(q, |q| + m) ^ Times(lead, GENERATOR[m - 1])
  {
    SumMore(q, lead, |q| + m, 7);
  }

  /** What the product gains, the remainder loses. */
  predicate Exchange(p: bv5, b: bv5, t: bv5, p': bv5, a: bv5) { p' == p ^ t && a == b ^ t }

  lemma Exchanged(d: bv5, p: bv5, b: bv5, t: bv5, p': bv5, a: bv5)
    requires Exchange(p, b, t, p', a) && d == p ^ b
    ensures d == p' ^ a
  {
  }

  lemma DividesAt(ws: seq<bv5>, q: seq<bv5>, r: seq<bv5>, m: nat)
    requires Divides(ws, q, r) && m < 6
    ensures Dividend(ws)[|ws| + m] == Product(q, |ws| + m) ^ r[m]
  {
    assert DividedAt(ws, q, r, |ws| + m);
  }

  lemma DivideWithin(ws: seq<bv5>, q: seq<bv5>, r: seq<bv5>, m: nat, t: bv5, p': bv5, a: bv5)
    requires Divides(ws, q, r) && 1 <= m <= 5 && Exchange(Product(q, |ws| + m), r[m], t, p', a)
    ensures Dividend(ws)[|ws| + m] == p' ^ a
  {
    DividesAt(ws, q, r, m);
    Exchanged(Dividend(ws)[|ws| + m], Product(q, |ws| + m), r[m], t, p', a);
  }

  lemma StepsAt(r: seq<bv5>, w: bv5, r': seq<bv5>, j: nat)
    requires Steps(r, w, r') && j < 6
    ensures r'[j] == (if j < 5 then r[j + 1] else w) ^ Times(r[0], GENERATOR[j])
  {
  }

  lemma DivideEnd(ws: seq<bv5>, q: seq<bv5>, r: seq<bv5>, w: bv5, r': seq<bv5>)
    requires Divides(ws, q, r) && Steps(r, w, r')
    ensures Dividend(ws + [w])[|ws| + 6] == Product(q + [r[0]], |ws| + 6) ^ At(r', 5)
  {
    var k := |ws| + 6;
    DividendMore(ws, w, k);
    SumBeyond(q, k, 7);
    NewTerm(q, r[0], 6);
    StepsAt(r, w, r', 5);
    Carries(0, w, w, Times(r[0], GENERATOR[5]), r'[5]);
  }

  lemma DivideAt(ws: seq<bv5>, q: seq<bv5>, r: seq<bv5>, w: bv5, r': seq<bv5>, k: nat)
    requires Divides(ws, q, r) && Steps(r, w, r') && k < 7 + |ws|
    ensures DividedAt(ws + [w], q + [r[0]], r', k)
  {
    var m := k - |ws|;
    if m < 0 { DivideBefore(ws, q, r, w, r', k); }
    else if m == 0 { DivideLead(ws, q, r, w, r'); }
    else if m <= 5 {
      var t := SameTerm(q, r, w, r', m);
      DivideMiddle(ws, q, r, w, m, t, Product(q + [r[0]], k), r'[m - 1]);
    }
    else { DivideEnd(ws, q, r, w, r'); }
  }

  lemma SameTerm(q: seq<bv5>, r: seq<bv5>, w: bv5, r': seq<bv5>, m: nat) returns (t: bv5)
    requires Steps(r, w, r') && 1 <= m <= 5
    ensures Product(q + [r[0]], |q| + m) == Product(q, |q| + m) ^ t
    ensures r'[m - 1] == r[m] ^ t
  {
    t := Times(r[0], GENERATOR[m - 1]);
    NewTerm(q, r[0], m);
    StepsAt(r, w, r', m - 1);
  }

  lemma DivideMiddle(ws: seq<bv5>, q: seq<bv5>, r: seq<bv5>, w: bv5, m: nat, t: bv5, p': bv5, a: bv5)
    requires Divides(ws, q, r) && 1 <= m <= 5 && Exchange(Product(q, |ws| + m), r[m], t, p', a)
    ensures Dividend(ws + [w])[|ws| + m] == p' ^ a
  {
    DivideWithin(ws, q, r, m, t, p', a);
    DividendMore(ws, w, |ws| + m);
  }

  lemma DivideStep(ws: seq<bv5>, q: seq<bv5>, r: seq<bv5>, w: bv5, r': seq<bv5>)
    requires Divides(ws, q, r) && Steps(r, w, r')
    ensures Divides(ws + [w], q + [r[0]], r')
  {
    forall k | 0 <= k < 6 + |ws + [w]| ensures DividedAt(ws + [w], q + [r[0]], r', k) {
      DivideAt(ws, q, r, w, r', k);
    }
  }

  // The checksum.

  function Elems(ws: seq<nat>): (r: seq<bv5>)
    ensures |r| == |ws| && forall i | 0 <= i < |ws| :: r[i] == Elem(ToBits(ws[i], 5))
  {
    seq(|ws|, i requires 0 <= i < |ws| => Elem(ToBits(ws[i], 5)))
  }

  lemma PolymodMore(ws: seq<nat>, w: nat)
    ensures Polymod(ws + [w]) == Step(Generators(), Polymod(ws), ToBits(w, 5))
  {
    var gs := Generators();
    assert WordsToBits(ws + [w]) == WordsToBits(ws) + [ToBits(w, 5)];
    FeedConcat(gs, ONE, WordsToBits(ws), [ToBits(w, 5)]);
  }

  lemma WordsOfOne()
    ensures Words(ONE) == [0, 0, 0, 0, 0, 1]
  {
    forall j | 0 <= j < 5 ensures Elem(Word(ONE, j)) == 0 { ZeroWord(Word(ONE, j)); }
    assert Word(ONE, 5) == [false, false, false, false, true];
  }

  /** The checksum of any words is the remainder of their polynomial by the generator; here is the quotient. */
  lemma {:induction false} PolymodDivides(ws: seq<nat>) returns (q: seq<bv5>)
    ensures Divides(Elems(ws), q, Words(Polymod(ws)))
    decreases |ws|
  {
    if ws == [] {
      q := [];
      WordsOfOne();
      forall k | 0 <= k < 6 ensures Product([], k) == 0 { SumOfNothing(k, 7); }
    } else {
      var front, w := ws[..|ws| - 1], ws[|ws| - 1];
      q := PolymodDivides(front);
      var r, r' := Words(Polymod(front)), Words(Polymod(ws));
      assert ws == front + [w] && Elems(ws) == Elems(front) + [Elem(ToBits(w, 5))];
      PolymodMore(front, w);
      forall j | 0 <= j < 6
        ensures r'[j] == (if j < 5 then r[j + 1] else Elem(ToBits(w, 5))) ^ Times(r[0], GENERATOR[j])
      {
        StepInField(Polymod(front), ToBits(w, 5), j);
      }
      DivideStep(Elems(front), q, r, Elem(ToBits(w, 5)), r');
      q := q + [r[0]];
    }
  }

  lemma {:induction false} SumOfNothing(k: int, n: nat)
    requires n <= 7
    ensures Sum([], k, n) == 0
  {
    if n > 0 {
      SumOfNothing(k, n - 1);
      TimesUnits(Coefficient(n - 1));
    }
  }

  /** The quotient's coefficients follow from the highest on, since the generator leads with one. */
  lemma {:induction false} QuotientUnique(ws: seq<bv5>, q: seq<bv5>, r: seq<bv5>, p: seq<bv5>, s: seq<bv5>, n: nat)
    requires Divides(ws, q, r) && Divides(ws, p, s) && n <= |ws|
    ensures q[..n] == p[..n]
  {
    if n > 0 {
      QuotientUnique(ws, q, r, p, s, n - 1);
      SameBefore(q, p, n - 1);
      assert DividedAt(ws, q, r, n - 1) && DividedAt(ws, p, s, n - 1);
      assert q[..n] == q[..n - 1] + [q[n - 1]] && p[..n] == p[..n - 1] + [p[n - 1]];
    }
  }

  lemma {:induction false} SumSame(q: seq<bv5>, p: seq<bv5>, k: nat, n: nat)
    requires k < |q| == |p| && q[..k] == p[..k] && 0 < n <= 7
    ensures Sum(q, k, n) ^ q[k] == Sum(p, k, n) ^ p[k]
  {
    if n == 1 {
      TimesUnits(q[k]);
      TimesUnits(p[k]);
    } else {
      SumSame(q, p, k, n - 1);
      var i := k - (n - 1);
      if i >= 0 { assert q[i] == q[..k][i] == p[..k][i]; }
    }
  }

  lemma SameBefore(q: seq<bv5>, p: seq<bv5>, k: nat)
    requires k < |q| == |p| && q[..k] == p[..k]
    ensures Product(q, k) ^ q[k] == Product(p, k) ^ p[k]
  {
    SumSame(q, p, k, 7);
  }

  lemma RemainderUnique(ws: seq<bv5>, q: seq<bv5>, r: seq<bv5>, p: seq<bv5>, s: seq<bv5>)
    requires Divides(ws, q, r) && Divides(ws, p, s)
    ensures r == s
  {
    QuotientUnique(ws, q, r, p, s, |ws|);
    assert q[..|ws|] == q && p[..|ws|] == p;
    forall j | 0 <= j < 6 ensures r[j] == s[j] {
      var k := |ws| + j;
      assert DividedAt(ws, q, r, k) && DividedAt(ws, p, s, k);
    }
  }

  lemma ElemInjective(a: Bits, b: Bits)
    requires WordBits(a) && WordBits(b) && Elem(a) == Elem(b)
    ensures a == b
  {
    ElemBits(a);
    ElemBits(b);
  }

  lemma WordsInjective(c: Bits, d: Bits)
    requires Register(c) && Register(d) && Words(c) == Words(d)
    ensures c == d
  {
    forall k | 0 <= k < 30 ensures c[k] == d[k] {
      var j := k / 5;
      assert Words(c)[j] == Words(d)[j];
      ElemInjective(Word(c, j), Word(d, j));
      assert c[k] == Word(c, j)[k - 5 * j] && d[k] == Word(d, j)[k - 5 * j];
    }
  }

  /** Words carry a good checksum if and only if their polynomial is one more than a multiple of the generator. */
  lemma GoodIff(ws: seq<nat>)
    ensures Polymod(ws) == ONE <==> exists q :: Divides(Elems(ws), q, [0, 0, 0, 0, 0, 1])
  {
    var q := PolymodDivides(ws);
    WordsOfOne();
    if p :| Divides(Elems(ws), p, [0, 0, 0, 0, 0, 1]) {
      RemainderUnique(Elems(ws), q, Words(Polymod(ws)), p, [0, 0, 0, 0, 0, 1]);
      WordsInjective(Polymod(ws), ONE);
    }
  }
}
