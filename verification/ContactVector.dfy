/**
The published example of a Nostr key and its `npub`: the whole codec, alphabet, prefix,
checksum and regrouping, reads and writes it. What the prefix contributes to the checksum is
stated for every prefix.
*/
module ContactVector {
  import opened Common
  import opened BitMath
  import opened Bech32
  import opened Bech32Field
  import opened Contact
  import opened ContactLaws
  import Regroup

  /** The prefix enters the checksum as its high parts, a zero and its low parts. */
  lemma ExpandShape(prefix: string, i: nat)
    requires i < |prefix|
    ensures var ws, n := Expand(prefix), |prefix|;
            && |ws| == 2 * n + 1 && ws[n] == 0
            && ws[i] * 32 + ws[n + 1 + i] == prefix[i] as int && ws[n + 1 + i] < 32
  {
  }

  /** So a link has a good checksum exactly if that polynomial is one more than a multiple of the generator. */
  lemma UnsealsIff(prefix: string, letters: string)
    requires AllLetters(letters) && |letters| >= 7
    ensures Unseal(prefix, letters) != Err(ChecksumFailed) <==>
            exists q :: Divides(Elems(Expand(prefix) + WordsOf(letters)), q, [0, 0, 0, 0, 0, 1])
  {
    GoodIff(Expand(prefix) + WordsOf(letters));
  }

  // The register as six numbers.

  datatype Reg = Reg(a: bv5, b: bv5, c: bv5, d: bv5, e: bv5, f: bv5)

  function Listed(r: Reg): (l: seq<bv5>)
    ensures |l| == 6
  {
    [r.a, r.b, r.c, r.d, r.e, r.f]
  }

  function NextAt(l: seq<bv5>, w: bv5, j: nat): bv5
    requires |l| == 6 && j < 6
  {
    (if j < 5 then l[j + 1] else w) ^ Times(l[0], GENERATOR[j])
  }

  function Next(r: Reg, w: bv5): Reg {
    Reg(r.b ^ Times(r.a, 29), r.c ^ Times(r.a, 22), r.d ^ Times(r.a, 20), r.e ^ Times(r.a, 21), r.f ^ Times(r.a, 29),
        w ^ Times(r.a, 18))
  }

  lemma IndexListed(r: Reg)
    ensures var l := Listed(r); l[0] == r.a && l[1] == r.b && l[2] == r.c && l[3] == r.d && l[4] == r.e && l[5] == r.f
  {
  }

  lemma Next0(r: Reg, w: bv5)
    ensures Next(r, w).a == NextAt(Listed(r), w, 0)
  {
    IndexListed(r);
  }

  lemma Next1(r: Reg, w: bv5)
    ensures Next(r, w).b == NextAt(Listed(r), w, 1)
  {
    IndexListed(r);
  }

  lemma Next2(r: Reg, w: bv5)
    ensures Next(r, w).c == NextAt(Listed(r), w, 2)
  {
    IndexListed(r);
  }

  lemma Next3(r: Reg, w: bv5)
    ensures Next(r, w).d == NextAt(Listed(r), w, 3)
  {
    IndexListed(r);
  }

  lemma Next4(r: Reg, w: bv5)
    ensures Next(r, w).e == NextAt(Listed(r), w, 4)
  {
    IndexListed(r);
  }

  lemma Next5(r: Reg, w: bv5)
    ensures Next(r, w).f == NextAt(Listed(r), w, 5)
  {
    IndexListed(r);
  }

  lemma NextListed(r: Reg, w: bv5, j: nat)
    requires j < 6
    ensures Listed(Next(r, w))[j] == NextAt(Listed(r), w, j)
  {
    IndexListed(Next(r, w));
    if j == 0 { Next0(r, w); } else if j == 1 { Next1(r, w); } else if j == 2 { Next2(r, w); }
    else if j == 3 { Next3(r, w); } else if j == 4 { Next4(r, w); } else { Next5(r, w); }
  }

  /** The checksum register after these words. */
  predicate Holds(ws: seq<nat>, r: Reg) { Words(Polymod(ws)) == Listed(r) }

  /** The word as an element. */
  function Lit(w: nat): bv5 { Elem([w / 16 % 2 == 1, w / 8 % 2 == 1, w / 4 % 2 == 1, w / 2 % 2 == 1, w % 2 == 1]) }

  lemma NextWord(c: Bits, b: Bits, l: seq<bv5>, j: nat)
    requires Register(c) && WordBits(b) && Words(c) == l && j < 6
    ensures Words(Step(Generators(), c, b))[j] == NextAt(l, Elem(b), j)
  {
    StepInField(c, b, j);
  }

  lemma FeedOne(ws: seq<nat>, w: nat, r: Reg)
    requires Holds(ws, r) && w < 32
    ensures Holds(ws + [w], Next(r, Lit(w)))
  {
    ElemOf(w, Lit(w));
    PolymodMore(ws, w);
    forall j | 0 <= j < 6 ensures Words(Polymod(ws + [w]))[j] == Listed(Next(r, Lit(w)))[j] {
      NextWord(Polymod(ws), ToBits(w, 5), Listed(r), j);
      NextListed(r, Lit(w), j);
    }
  }

  /** Two words take the register from `r` to `s`. */
  predicate Two(v: nat, w: nat, r: Reg, s: Reg) { v < 32 && w < 32 && s == Next(Next(r, Lit(v)), Lit(w)) }

  lemma FeedTwo(ws: seq<nat>, v: nat, w: nat, r: Reg, s: Reg)
    requires Holds(ws, r) && Two(v, w, r, s)
    ensures Holds(ws + [v, w], s)
  {
    FeedOne(ws, v, r);
    FeedOne(ws + [v], w, Next(r, Lit(v)));
    assert ws + [v] + [w] == ws + [v, w];
  }

  // The example, in pieces of eight letters and five bytes.

  const T0: string := "80cvv07t"
  const T1: string := "jdrrgpa0"
  const T2: string := "j7j7tmny"
  const T3: string := "l2yr6yr7"
  const T4: string := "l8j4s3ev"
  const T5: string := "f6u64th6"
  const T6: string := "gkwsyjh6w6"

  const W0: seq<nat> := [7, 15, 24, 12, 12, 15, 30, 11]
  const W1: seq<nat> := [18, 13, 3, 3, 8, 1, 29, 15]
  const W2: seq<nat> := [18, 30, 18, 30, 11, 27, 19, 4]
  const W3: seq<nat> := [31, 10, 4, 3, 26, 4, 3, 30]
  const W4: seq<nat> := [31, 7, 18, 21, 16, 17, 25, 12]
  const W5: seq<nat> := [9, 26, 28, 26, 21, 11, 23, 26]
  const W6: seq<nat> := [8, 22, 14, 16, 4, 18, 23, 26, 14, 26]

  const B0: seq<nat> := [0x3b, 0xf0, 0xc6, 0x3f, 0xcb]
  const B1: seq<nat> := [0x93, 0x46, 0x34, 0x07, 0xaf]
  const B2: seq<nat> := [0x97, 0xa5, 0xe5, 0xee, 0x64]
  const B3: seq<nat> := [0xfa, 0x88, 0x3d, 0x10, 0x7e]
  const B4: seq<nat> := [0xf9, 0xe5, 0x58, 0x47, 0x2c]
  const B5: seq<nat> := [0x4e, 0xb9, 0xaa, 0xae, 0xfa]
  const B6: seq<nat> := [0x45, 0x9d]

  const P: seq<nat> := [3, 3, 3, 0, 14, 16, 21, 2]

  lemma Pair0()
    ensures Two(3, 3, Reg(0, 0, 0, 0, 1, 3), Reg(0, 0, 1, 3, 3, 3))
  {
  }

  lemma Pair1()
    ensures Two(3, 0, Reg(0, 0, 1, 3, 3, 3), Reg(1, 3, 3, 3, 3, 0))
  {
  }

  lemma Pair2()
    ensures Two(14, 16, Reg(1, 3, 3, 3, 3, 0), Reg(2, 13, 25, 12, 11, 9))
  {
  }

  lemma Pair3()
    ensures Two(21, 2, Reg(2, 13, 25, 12, 11, 9), Reg(11, 23, 7, 11, 15, 27))
  {
  }

  lemma FeedPFront(ws: seq<nat>)
    requires Holds(ws, Reg(0, 0, 0, 0, 1, 3))
    ensures Holds(ws + [3, 3, 3, 0], Reg(1, 3, 3, 3, 3, 0))
  {
    Pair0();
    FeedTwo(ws, 3, 3, Reg(0, 0, 0, 0, 1, 3), Reg(0, 0, 1, 3, 3, 3));
    Pair1();
    FeedTwo(ws + [3, 3], 3, 0, Reg(0, 0, 1, 3, 3, 3), Reg(1, 3, 3, 3, 3, 0));
    assert ws + [3, 3] + [3, 0] == ws + [3, 3, 3, 0];
  }

  lemma FeedPBack(ws: seq<nat>)
    requires Holds(ws, Reg(1, 3, 3, 3, 3, 0))
    ensures Holds(ws + [14, 16, 21, 2], Reg(11, 23, 7, 11, 15, 27))
  {
    Pair2();
    FeedTwo(ws, 14, 16, Reg(1, 3, 3, 3, 3, 0), Reg(2, 13, 25, 12, 11, 9));
    Pair3();
    FeedTwo(ws + [14, 16], 21, 2, Reg(2, 13, 25, 12, 11, 9), Reg(11, 23, 7, 11, 15, 27));
    assert ws + [14, 16] + [21, 2] == ws + [14, 16, 21, 2];
  }

  lemma FeedP(ws: seq<nat>)
    requires Holds(ws, Reg(0, 0, 0, 0, 1, 3))
    ensures Holds(ws + P, Reg(11, 23, 7, 11, 15, 27))
  {
    FeedPFront(ws);
    FeedPBack(ws + [3, 3, 3, 0]);
    assert ws + [3, 3, 3, 0] + [14, 16, 21, 2] == ws + P;
  }

  lemma Pair4()
    ensures Two(7, 15, Reg(11, 23, 7, 11, 15, 27), Reg(1, 3, 2, 27, 4, 10))
  {
  }

  lemma Pair5()
    ensures Two(24, 12, Reg(1, 3, 2, 27, 4, 10), Reg(3, 21, 30, 6, 29, 21))
  {
  }

  lemma Pair6()
    ensures Two(12, 15, Reg(3, 21, 30, 6, 29, 21), Reg(8, 21, 18, 25, 22, 30))
  {
  }

  lemma Pair7()
    ensures Two(30, 11, Reg(8, 21, 18, 25, 22, 30), Reg(22, 26, 11, 26, 19, 9))
  {
  }

  lemma Feed0Front(ws: seq<nat>)
    requires Holds(ws, Reg(11, 23, 7, 11, 15, 27))
    ensures Holds(ws + [7, 15, 24, 12], Reg(3, 21, 30, 6, 29, 21))
  {
    Pair4();
    FeedTwo(ws, 7, 15, Reg(11, 23, 7, 11, 15, 27), Reg(1, 3, 2, 27, 4, 10));
    Pair5();
    FeedTwo(ws + [7, 15], 24, 12, Reg(1, 3, 2, 27, 4, 10), Reg(3, 21, 30, 6, 29, 21));
    assert ws + [7, 15] + [24, 12] == ws + [7, 15, 24, 12];
  }

  lemma Feed0Back(ws: seq<nat>)
    requires Holds(ws, Reg(3, 21, 30, 6, 29, 21))
    ensures Holds(ws + [12, 15, 30, 11], Reg(22, 26, 11, 26, 19, 9))
  {
    Pair6();
    FeedTwo(ws, 12, 15, Reg(3, 21, 30, 6, 29, 21), Reg(8, 21, 18, 25, 22, 30));
    Pair7();
    FeedTwo(ws + [12, 15], 30, 11, Reg(8, 21, 18, 25, 22, 30), Reg(22, 26, 11, 26, 19, 9));
    assert ws + [12, 15] + [30, 11] == ws + [12, 15, 30, 11];
  }

  lemma Feed0(ws: seq<nat>)
    requires Holds(ws, Reg(11, 23, 7, 11, 15, 27))
    ensures Holds(ws + W0, Reg(22, 26, 11, 26, 19, 9))
  {
    Feed0Front(ws);
    Feed0Back(ws + [7, 15, 24, 12]);
    assert ws + [7, 15, 24, 12] + [12, 15, 30, 11] == ws + W0;
  }

  lemma Pair8()
    ensures Two(18, 13, Reg(22, 26, 11, 26, 19, 9), Reg(30, 3, 19, 14, 13, 1))
  {
  }

  lemma Pair9()
    ensures Two(3, 3, Reg(30, 3, 19, 14, 13, 1), Reg(19, 10, 22, 8, 0, 10))
  {
  }

  lemma Pair10()
    ensures Two(8, 1, Reg(19, 10, 22, 8, 0, 10), Reg(12, 2, 18, 28, 12, 0))
  {
  }

  lemma Pair11()
    ensures Two(29, 15, Reg(12, 2, 18, 28, 12, 0), Reg(23, 8, 27, 31, 1, 3))
  {
  }

  lemma Feed1Front(ws: seq<nat>)
    requires Holds(ws, Reg(22, 26, 11, 26, 19, 9))
    ensures Holds(ws + [18, 13, 3, 3], Reg(19, 10, 22, 8, 0, 10))
  {
    Pair8();
    FeedTwo(ws, 18, 13, Reg(22, 26, 11, 26, 19, 9), Reg(30, 3, 19, 14, 13, 1));
    Pair9();
    FeedTwo(ws + [18, 13], 3, 3, Reg(30, 3, 19, 14, 13, 1), Reg(19, 10, 22, 8, 0, 10));
    assert ws + [18, 13] + [3, 3] == ws + [18, 13, 3, 3];
  }

  lemma Feed1Back(ws: seq<nat>)
    requires Holds(ws, Reg(19, 10, 22, 8, 0, 10))
    ensures Holds(ws + [8, 1, 29, 15], Reg(23, 8, 27, 31, 1, 3))
  {
    Pair10();
    FeedTwo(ws, 8, 1, Reg(19, 10, 22, 8, 0, 10), Reg(12, 2, 18, 28, 12, 0));
    Pair11();
    FeedTwo(ws + [8, 1], 29, 15, Reg(12, 2, 18, 28, 12, 0), Reg(23, 8, 27, 31, 1, 3));
    assert ws + [8, 1] + [29, 15] == ws + [8, 1, 29, 15];
  }

  lemma Feed1(ws: seq<nat>)
    requires Holds(ws, Reg(22, 26, 11, 26, 19, 9))
    ensures Holds(ws + W1, Reg(23, 8, 27, 31, 1, 3))
  {
    Feed1Front(ws);
    Feed1Back(ws + [18, 13, 3, 3]);
    assert ws + [18, 13, 3, 3] + [8, 1, 29, 15] == ws + W1;
  }

  lemma Pair12()
    ensures Two(18, 30, Reg(23, 8, 27, 31, 1, 3), Reg(7, 31, 7, 5, 0, 10))
  {
  }

  lemma Pair13()
    ensures Two(18, 30, Reg(7, 31, 7, 5, 0, 10), Reg(9, 8, 31, 26, 0, 7))
  {
  }

  lemma Pair14()
    ensures Two(11, 27, Reg(9, 8, 31, 26, 0, 7), Reg(13, 13, 8, 30, 20, 25))
  {
  }

  lemma Pair15()
    ensures Two(19, 4, Reg(13, 13, 8, 30, 20, 25), Reg(29, 26, 31, 0, 27, 22))
  {
  }

  lemma Feed2Front(ws: seq<nat>)
    requires Holds(ws, Reg(23, 8, 27, 31, 1, 3))
    ensures Holds(ws + [18, 30, 18, 30], Reg(9, 8, 31, 26, 0, 7))
  {
    Pair12();
    FeedTwo(ws, 18, 30, Reg(23, 8, 27, 31, 1, 3), Reg(7, 31, 7, 5, 0, 10));
    Pair13();
    FeedTwo(ws + [18, 30], 18, 30, Reg(7, 31, 7, 5, 0, 10), Reg(9, 8, 31, 26, 0, 7));
    assert ws + [18, 30] + [18, 30] == ws + [18, 30, 18, 30];
  }

  lemma Feed2Back(ws: seq<nat>)
    requires Holds(ws, Reg(9, 8, 31, 26, 0, 7))
    ensures Holds(ws + [11, 27, 19, 4], Reg(29, 26, 31, 0, 27, 22))
  {
    Pair14();
    FeedTwo(ws, 11, 27, Reg(9, 8, 31, 26, 0, 7), Reg(13, 13, 8, 30, 20, 25));
    Pair15();
    FeedTwo(ws + [11, 27], 19, 4, Reg(13, 13, 8, 30, 20, 25), Reg(29, 26, 31, 0, 27, 22));
    assert ws + [11, 27] + [19, 4] == ws + [11, 27, 19, 4];
  }

  lemma Feed2(ws: seq<nat>)
    requires Holds(ws, Reg(23, 8, 27, 31, 1, 3))
    ensures Holds(ws + W2, Reg(29, 26, 31, 0, 27, 22))
  {
    Feed2Front(ws);
    Feed2Back(ws + [18, 30, 18, 30]);
    assert ws + [18, 30, 18, 30] + [11, 27, 19, 4] == ws + W2;
  }

  lemma Pair16()
    ensures Two(31, 10, Reg(29, 26, 31, 0, 27, 22), Reg(24, 9, 9, 25, 23, 21))
  {
  }

  lemma Pair17()
    ensures Two(4, 3, Reg(24, 9, 9, 25, 23, 21), Reg(15, 16, 2, 29, 25, 14))
  {
  }

  lemma Pair18()
    ensures Two(26, 4, Reg(15, 16, 2, 29, 25, 14), Reg(16, 3, 22, 13, 29, 28))
  {
  }

  lemma Pair19()
    ensures Two(3, 30, Reg(16, 3, 22, 13, 29, 28), Reg(30, 11, 14, 20, 25, 26))
  {
  }

  lemma Feed3Front(ws: seq<nat>)
    requires Holds(ws, Reg(29, 26, 31, 0, 27, 22))
    ensures Holds(ws + [31, 10, 4, 3], Reg(15, 16, 2, 29, 25, 14))
  {
    Pair16();
    FeedTwo(ws, 31, 10, Reg(29, 26, 31, 0, 27, 22), Reg(24, 9, 9, 25, 23, 21));
    Pair17();
    FeedTwo(ws + [31, 10], 4, 3, Reg(24, 9, 9, 25, 23, 21), Reg(15, 16, 2, 29, 25, 14));
    assert ws + [31, 10] + [4, 3] == ws + [31, 10, 4, 3];
  }

  lemma Feed3Back(ws: seq<nat>)
    requires Holds(ws, Reg(15, 16, 2, 29, 25, 14))
    ensures Holds(ws + [26, 4, 3, 30], Reg(30, 11, 14, 20, 25, 26))
  {
    Pair18();
    FeedTwo(ws, 26, 4, Reg(15, 16, 2, 29, 25, 14), Reg(16, 3, 22, 13, 29, 28));
    Pair19();
    FeedTwo(ws + [26, 4], 3, 30, Reg(16, 3, 22, 13, 29, 28), Reg(30, 11, 14, 20, 25, 26));
    assert ws + [26, 4] + [3, 30] == ws + [26, 4, 3, 30];
  }

  lemma Feed3(ws: seq<nat>)
    requires Holds(ws, Reg(29, 26, 31, 0, 27, 22))
    ensures Holds(ws + W3, Reg(30, 11, 14, 20, 25, 26))
  {
    Feed3Front(ws);
    Feed3Back(ws + [31, 10, 4, 3]);
    assert ws + [31, 10, 4, 3] + [26, 4, 3, 30] == ws + W3;
  }

  lemma Pair20()
    ensures Two(31, 7, Reg(30, 11, 14, 20, 25, 26), Reg(16, 4, 6, 31, 2, 19))
  {
  }

  lemma Pair21()
    ensures Two(18, 21, Reg(16, 4, 6, 31, 2, 19), Reg(15, 0, 6, 11, 9, 20))
  {
  }

  lemma Pair22()
    ensures Two(16, 17, Reg(15, 0, 6, 11, 9, 20), Reg(1, 20, 14, 15, 2, 26))
  {
  }

  lemma Pair23()
    ensures Two(25, 12, Reg(1, 20, 14, 15, 2, 26), Reg(27, 25, 7, 30, 8, 3))
  {
  }

  lemma Feed4Front(ws: seq<nat>)
    requires Holds(ws, Reg(30, 11, 14, 20, 25, 26))
    ensures Holds(ws + [31, 7, 18, 21], Reg(15, 0, 6, 11, 9, 20))
  {
    Pair20();
    FeedTwo(ws, 31, 7, Reg(30, 11, 14, 20, 25, 26), Reg(16, 4, 6, 31, 2, 19));
    Pair21();
    FeedTwo(ws + [31, 7], 18, 21, Reg(16, 4, 6, 31, 2, 19), Reg(15, 0, 6, 11, 9, 20));
    assert ws + [31, 7] + [18, 21] == ws + [31, 7, 18, 21];
  }

  lemma Feed4Back(ws: seq<nat>)
    requires Holds(ws, Reg(15, 0, 6, 11, 9, 20))
    ensures Holds(ws + [16, 17, 25, 12], Reg(27, 25, 7, 30, 8, 3))
  {
    Pair22();
    FeedTwo(ws, 16, 17, Reg(15, 0, 6, 11, 9, 20), Reg(1, 20, 14, 15, 2, 26));
    Pair23();
    FeedTwo(ws + [16, 17], 25, 12, Reg(1, 20, 14, 15, 2, 26), Reg(27, 25, 7, 30, 8, 3));
    assert ws + [16, 17] + [25, 12] == ws + [16, 17, 25, 12];
  }

  lemma Feed4(ws: seq<nat>)
    requires Holds(ws, Reg(30, 11, 14, 20, 25, 26))
    ensures Holds(ws + W4, Reg(27, 25, 7, 30, 8, 3))
  {
    Feed4Front(ws);
    Feed4Back(ws + [31, 7, 18, 21]);
    assert ws + [31, 7, 18, 21] + [16, 17, 25, 12] == ws + W4;
  }

  lemma Pair24()
    ensures Two(9, 26, Reg(27, 25, 7, 30, 8, 3), Reg(5, 24, 4, 20, 28, 14))
  {
  }

  lemma Pair25()
    ensures Two(28, 26, Reg(5, 24, 4, 20, 28, 14), Reg(21, 19, 10, 19, 25, 10))
  {
  }

  lemma Pair26()
    ensures Two(21, 11, Reg(21, 19, 10, 19, 25, 10), Reg(13, 6, 24, 19, 20, 2))
  {
  }

  lemma Pair27()
    ensures Two(23, 26, Reg(13, 6, 24, 19, 20, 2), Reg(29, 16, 14, 1, 15, 10))
  {
  }

  lemma Feed5Front(ws: seq<nat>)
    requires Holds(ws, Reg(27, 25, 7, 30, 8, 3))
    ensures Holds(ws + [9, 26, 28, 26], Reg(21, 19, 10, 19, 25, 10))
  {
    Pair24();
    FeedTwo(ws, 9, 26, Reg(27, 25, 7, 30, 8, 3), Reg(5, 24, 4, 20, 28, 14));
    Pair25();
    FeedTwo(ws + [9, 26], 28, 26, Reg(5, 24, 4, 20, 28, 14), Reg(21, 19, 10, 19, 25, 10));
    assert ws + [9, 26] + [28, 26] == ws + [9, 26, 28, 26];
  }

  lemma Feed5Back(ws: seq<nat>)
    requires Holds(ws, Reg(21, 19, 10, 19, 25, 10))
    ensures Holds(ws + [21, 11, 23, 26], Reg(29, 16, 14, 1, 15, 10))
  {
    Pair26();
    FeedTwo(ws, 21, 11, Reg(21, 19, 10, 19, 25, 10), Reg(13, 6, 24, 19, 20, 2));
    Pair27();
    FeedTwo(ws + [21, 11], 23, 26, Reg(13, 6, 24, 19, 20, 2), Reg(29, 16, 14, 1, 15, 10));
    assert ws + [21, 11] + [23, 26] == ws + [21, 11, 23, 26];
  }

  lemma Feed5(ws: seq<nat>)
    requires Holds(ws, Reg(27, 25, 7, 30, 8, 3))
    ensures Holds(ws + W5, Reg(29, 16, 14, 1, 15, 10))
  {
    Feed5Front(ws);
    Feed5Back(ws + [9, 26, 28, 26]);
    assert ws + [9, 26, 28, 26] + [21, 11, 23, 26] == ws + W5;
  }

  lemma Pair28()
    ensures Two(8, 22, Reg(29, 16, 14, 1, 15, 10), Reg(4, 25, 24, 10, 13, 25))
  {
  }

  lemma Pair29()
    ensures Two(14, 16, Reg(4, 25, 24, 10, 13, 25), Reg(27, 6, 0, 11, 29, 20))
  {
  }

  lemma Pair30()
    ensures Two(4, 18, Reg(27, 6, 0, 11, 29, 20), Reg(8, 1, 10, 7, 27, 13))
  {
  }

  lemma Pair31()
    ensures Two(23, 26, Reg(8, 1, 10, 7, 27, 13), Reg(20, 15, 12, 23, 0, 17))
  {
  }

  lemma Pair32()
    ensures Two(14, 26, Reg(20, 15, 12, 23, 0, 17), Reg(0, 0, 0, 0, 0, 1))
  {
  }

  lemma Feed6Front(ws: seq<nat>)
    requires Holds(ws, Reg(29, 16, 14, 1, 15, 10))
    ensures Holds(ws + [8, 22, 14, 16, 4, 18], Reg(8, 1, 10, 7, 27, 13))
  {
    Pair28();
    FeedTwo(ws, 8, 22, Reg(29, 16, 14, 1, 15, 10), Reg(4, 25, 24, 10, 13, 25));
    Pair29();
    FeedTwo(ws + [8, 22], 14, 16, Reg(4, 25, 24, 10, 13, 25), Reg(27, 6, 0, 11, 29, 20));
    Pair30();
    FeedTwo(ws + [8, 22] + [14, 16], 4, 18, Reg(27, 6, 0, 11, 29, 20), Reg(8, 1, 10, 7, 27, 13));
    assert ws + [8, 22] + [14, 16] + [4, 18] == ws + [8, 22, 14, 16, 4, 18];
  }

  lemma Feed6Back(ws: seq<nat>)
    requires Holds(ws, Reg(8, 1, 10, 7, 27, 13))
    ensures Holds(ws + [23, 26, 14, 26], Reg(0, 0, 0, 0, 0, 1))
  {
    Pair31();
    FeedTwo(ws, 23, 26, Reg(8, 1, 10, 7, 27, 13), Reg(20, 15, 12, 23, 0, 17));
    Pair32();
    FeedTwo(ws + [23, 26], 14, 26, Reg(20, 15, 12, 23, 0, 17), Reg(0, 0, 0, 0, 0, 1));
    assert ws + [23, 26] + [14, 26] == ws + [23, 26, 14, 26];
  }

  lemma Feed6(ws: seq<nat>)
    requires Holds(ws, Reg(29, 16, 14, 1, 15, 10))
    ensures Holds(ws + W6, Reg(0, 0, 0, 0, 0, 1))
  {
    Feed6Front(ws);
    Feed6Back(ws + [8, 22, 14, 16, 4, 18]);
    assert ws + [8, 22, 14, 16, 4, 18] + [23, 26, 14, 26] == ws + W6;
  }

  /** The words of the example, their prefix before them, carry a good checksum. */
  lemma Checks()
    ensures Polymod([3] + P + W0 + W1 + W2 + W3 + W4 + W5 + W6) == ONE
  {
    WordsOfOne();
    assert Holds([], Reg(0, 0, 0, 0, 0, 1));
    FeedOne([], 3, Reg(0, 0, 0, 0, 0, 1));
    assert [] + [3] == [3];
    FeedP([3]);
    Feed0([3] + P);
    Feed1([3] + P + W0);
    Feed2([3] + P + W0 + W1);
    Feed3([3] + P + W0 + W1 + W2);
    Feed4([3] + P + W0 + W1 + W2 + W3);
    Feed5([3] + P + W0 + W1 + W2 + W3 + W4);
    Feed6([3] + P + W0 + W1 + W2 + W3 + W4 + W5);
    WordsInjective(Polymod([3] + P + W0 + W1 + W2 + W3 + W4 + W5 + W6), ONE);
  }

  lemma Reads0()
    ensures AllLetters(T0) && WordsOf(T0) == W0
  {
    assert |T0| == 8;
    assert IndexOf(T0[0]) == 7;
    assert IndexOf(T0[1]) == 15;
    assert IndexOf(T0[2]) == 24;
    assert IndexOf(T0[3]) == 12;
    assert IndexOf(T0[4]) == 12;
    assert IndexOf(T0[5]) == 15;
    assert IndexOf(T0[6]) == 30;
    assert IndexOf(T0[7]) == 11;
  }

  lemma Reads1()
    ensures AllLetters(T1) && WordsOf(T1) == W1
  {
    assert |T1| == 8;
    assert IndexOf(T1[0]) == 18;
    assert IndexOf(T1[1]) == 13;
    assert IndexOf(T1[2]) == 3;
    assert IndexOf(T1[3]) == 3;
    assert IndexOf(T1[4]) == 8;
    assert IndexOf(T1[5]) == 1;
    assert IndexOf(T1[6]) == 29;
    assert IndexOf(T1[7]) == 15;
  }

  lemma Reads2()
    ensures AllLetters(T2) && WordsOf(T2) == W2
  {
    assert |T2| == 8;
    assert IndexOf(T2[0]) == 18;
    assert IndexOf(T2[1]) == 30;
    assert IndexOf(T2[2]) == 18;
    assert IndexOf(T2[3]) == 30;
    assert IndexOf(T2[4]) == 11;
    assert IndexOf(T2[5]) == 27;
    assert IndexOf(T2[6]) == 19;
    assert IndexOf(T2[7]) == 4;
  }

  lemma Reads3()
    ensures AllLetters(T3) && WordsOf(T3) == W3
  {
    assert |T3| == 8;
    assert IndexOf(T3[0]) == 31;
    assert IndexOf(T3[1]) == 10;
    assert IndexOf(T3[2]) == 4;
    assert IndexOf(T3[3]) == 3;
    assert IndexOf(T3[4]) == 26;
    assert IndexOf(T3[5]) == 4;
    assert IndexOf(T3[6]) == 3;
    assert IndexOf(T3[7]) == 30;
  }

  lemma Reads4()
    ensures AllLetters(T4) && WordsOf(T4) == W4
  {
    assert |T4| == 8;
    assert IndexOf(T4[0]) == 31;
    assert IndexOf(T4[1]) == 7;
    assert IndexOf(T4[2]) == 18;
    assert IndexOf(T4[3]) == 21;
    assert IndexOf(T4[4]) == 16;
    assert IndexOf(T4[5]) == 17;
    assert IndexOf(T4[6]) == 25;
    assert IndexOf(T4[7]) == 12;
  }

  lemma Reads5()
    ensures AllLetters(T5) && WordsOf(T5) == W5
  {
    assert |T5| == 8;
    assert IndexOf(T5[0]) == 9;
    assert IndexOf(T5[1]) == 26;
    assert IndexOf(T5[2]) == 28;
    assert IndexOf(T5[3]) == 26;
    assert IndexOf(T5[4]) == 21;
    assert IndexOf(T5[5]) == 11;
    assert IndexOf(T5[6]) == 23;
    assert IndexOf(T5[7]) == 26;
  }

  lemma Reads6()
    ensures AllLetters(T6) && WordsOf(T6) == W6
  {
    assert |T6| == 10;
    assert IndexOf(T6[0]) == 8;
    assert IndexOf(T6[1]) == 22;
    assert IndexOf(T6[2]) == 14;
    assert IndexOf(T6[3]) == 16;
    assert IndexOf(T6[4]) == 4;
    assert IndexOf(T6[5]) == 18;
    assert IndexOf(T6[6]) == 23;
    assert IndexOf(T6[7]) == 26;
    assert IndexOf(T6[8]) == 14;
    assert IndexOf(T6[9]) == 26;
  }

  // Letters and words, words and bytes, bytes and digits, piece by piece.

  lemma WordsOfTwo(s: string, t: string)
    requires AllLetters(s) && AllLetters(t)
    ensures AllLetters(s + t) && WordsOf(s + t) == WordsOf(s) + WordsOf(t)
  {
  }

  const LETTERS: string := T0 + T1 + T2 + T3 + T4 + T5 + T6
  const LINK: string := "npub1" + LETTERS

  lemma ReadsAll()
    ensures AllLetters(LETTERS) && WordsOf(LETTERS) == W0 + W1 + W2 + W3 + W4 + W5 + W6
  {
    Reads0();
    Reads1();
    Reads2();
    Reads3();
    Reads4();
    Reads5();
    Reads6();
    WordsOfTwo(T0, T1);
    WordsOfTwo(T0 + T1, T2);
    WordsOfTwo(T0 + T1 + T2, T3);
    WordsOfTwo(T0 + T1 + T2 + T3, T4);
    WordsOfTwo(T0 + T1 + T2 + T3 + T4, T5);
    WordsOfTwo(T0 + T1 + T2 + T3 + T4 + T5, T6);
  }

  lemma {:induction false} StreamOfTwo(a: seq<nat>, b: seq<nat>, width: nat)
    ensures Regroup.Stream(a + b, width) == Regroup.Stream(a, width) + Regroup.Stream(b, width)
    decreases |b|
  {
    if b == [] {
      assert a + b == a;
    } else {
      var front, last := b[..|b| - 1], b[|b| - 1];
      StreamOfTwo(a, front, width);
      assert b == front + [last];
      Regroup.StreamOf(a + b, a + front, last, width);
      Regroup.StreamOf(b, front, last, width);
      Regroup.Associate(Regroup.Stream(a, width), Regroup.Stream(front, width), ToBits(last, width));
    }
  }

  /** The number that digits to the base 256 write. */
  function Base256(ds: seq<nat>): nat { if ds == [] then 0 else 256 * Base256(ds[..|ds| - 1]) + ds[|ds| - 1] }

  /** Bits written behind a number. */
  lemma AppendBits(a: nat, d: nat, k: nat, m: nat)
    requires d < Pow2(m)
    ensures ToBits(Shl(a, m) + d, k + m) == ToBits(a, k) + ToBits(d, m)
  {
    Reassemble(a, d, m);
    BitsSplit(Shl(a, m) + d, k, m);
    BitsOfLow(Shl(a, m) + d, m, m);
  }

  lemma ShiftFour(a: nat)
    ensures Shl(a, 4) == 16 * a && Shl(a, 8) == 256 * a
  {
    assert Shl(a, 1) == 2 * a && Shl(a, 2) == 4 * a && Shl(a, 3) == 8 * a;
    assert Shl(a, 5) == 2 * Shl(a, 4) && Shl(a, 6) == 2 * Shl(a, 5) && Shl(a, 7) == 2 * Shl(a, 6);
  }

  lemma AppendByte(a: nat, d: nat, k: nat)
    requires d < 256
    ensures ToBits(256 * a + d, k + 8) == ToBits(a, k) + ToBits(d, 8)
  {
    assert Pow2(8) == 256;
    ShiftFour(a);
    AppendBits(a, d, k, 8);
  }

  lemma AppendZeros(a: nat, k: nat)
    ensures ToBits(16 * a, k + 4) == ToBits(a, k) + Zeros(4)
  {
    ShiftFour(a);
    AppendBits(a, 0, k, 4);
    ZeroBits(4);
  }

  lemma {:induction false} StreamOfWords(ds: seq<nat>)
    requires Below32(ds)
    ensures Regroup.Stream(ds, 5) == ToBits(Base32(ds), 5 * |ds|)
    decreases |ds|
  {
    if ds != [] {
      StreamOfWords(ds[..|ds| - 1]);
      AppendWord(Base32(ds[..|ds| - 1]), ds[|ds| - 1], 5 * (|ds| - 1));
    }
  }

  predicate Below256(ds: seq<nat>) { forall i | 0 <= i < |ds| :: ds[i] < 256 }

  lemma {:induction false} StreamOfBytes(ds: seq<nat>)
    requires Below256(ds)
    ensures Regroup.Stream(ds, 8) == ToBits(Base256(ds), 8 * |ds|)
    decreases |ds|
  {
    if ds != [] {
      StreamOfBytes(ds[..|ds| - 1]);
      AppendByte(Base256(ds[..|ds| - 1]), ds[|ds| - 1], 8 * (|ds| - 1));
    }
  }

  lemma Base32Of(ds: seq<nat>, a: nat, b: nat, c: nat, d: nat)
    ensures Base32(ds + [a, b, c, d]) == 32 * (32 * (32 * (32 * Base32(ds) + a) + b) + c) + d
  {
    var e := ds + [a, b, c, d];
    assert e[..|ds| + 3] == ds + [a, b, c] && (ds + [a, b, c])[..|ds| + 2] == ds + [a, b];
    assert (ds + [a, b])[..|ds| + 1] == ds + [a] && (ds + [a])[..|ds|] == ds;
    assert Base32(ds + [a]) == 32 * Base32(ds) + a && Base32(ds + [a, b]) == 32 * Base32(ds + [a]) + b;
    assert Base32(ds + [a, b, c]) == 32 * Base32(ds + [a, b]) + c;
  }

  lemma Base256Of(a: nat, b: nat, c: nat, d: nat, e: nat)
    ensures Base256([a, b]) == 256 * a + b
    ensures Base256([a, b, c, d, e]) == 256 * (256 * (256 * (256 * a + b) + c) + d) + e
  {
    assert [a][..0] == [] && [a, b][..1] == [a] && [a, b, c][..2] == [a, b] && [a, b, c, d][..3] == [a, b, c];
    assert [a, b, c, d, e][..4] == [a, b, c, d];
    assert Base256([a]) == a && Base256([a, b, c]) == 256 * Base256([a, b]) + c;
    assert Base256([a, b, c, d]) == 256 * Base256([a, b, c]) + d;
  }

  /** Eight words and five bytes with the same bits. */
  lemma SameBits(w: seq<nat>, b: seq<nat>)
    requires |w| == 8 && |b| == 5 && Below32(w) && Below256(b) && Base32(w) == Base256(b)
    ensures Regroup.Stream(w, 5) == Regroup.Stream(b, 8)
  {
    StreamOfWords(w);
    StreamOfBytes(b);
  }

  lemma Bits0()
    ensures Regroup.Stream(W0, 5) == Regroup.Stream(B0, 8)
  {
    Base32Of([], 7, 15, 24, 12);
    Base32Of([7, 15, 24, 12], 12, 15, 30, 11);
    assert [] + [7, 15, 24, 12] == [7, 15, 24, 12] && [7, 15, 24, 12] + [12, 15, 30, 11] == W0;
    Base256Of(59, 240, 198, 63, 203);
    SameBits(W0, B0);
  }

  lemma Bits1()
    ensures Regroup.Stream(W1, 5) == Regroup.Stream(B1, 8)
  {
    Base32Of([], 18, 13, 3, 3);
    Base32Of([18, 13, 3, 3], 8, 1, 29, 15);
    assert [] + [18, 13, 3, 3] == [18, 13, 3, 3] && [18, 13, 3, 3] + [8, 1, 29, 15] == W1;
    Base256Of(147, 70, 52, 7, 175);
    SameBits(W1, B1);
  }

  lemma Bits2()
    ensures Regroup.Stream(W2, 5) == Regroup.Stream(B2, 8)
  {
    Base32Of([], 18, 30, 18, 30);
    Base32Of([18, 30, 18, 30], 11, 27, 19, 4);
    assert [] + [18, 30, 18, 30] == [18, 30, 18, 30] && [18, 30, 18, 30] + [11, 27, 19, 4] == W2;
    Base256Of(151, 165, 229, 238, 100);
    SameBits(W2, B2);
  }

  lemma Bits3()
    ensures Regroup.Stream(W3, 5) == Regroup.Stream(B3, 8)
  {
    Base32Of([], 31, 10, 4, 3);
    Base32Of([31, 10, 4, 3], 26, 4, 3, 30);
    assert [] + [31, 10, 4, 3] == [31, 10, 4, 3] && [31, 10, 4, 3] + [26, 4, 3, 30] == W3;
    Base256Of(250, 136, 61, 16, 126);
    SameBits(W3, B3);
  }

  lemma Bits4()
    ensures Regroup.Stream(W4, 5) == Regroup.Stream(B4, 8)
  {
    Base32Of([], 31, 7, 18, 21);
    Base32Of([31, 7, 18, 21], 16, 17, 25, 12);
    assert [] + [31, 7, 18, 21] == [31, 7, 18, 21] && [31, 7, 18, 21] + [16, 17, 25, 12] == W4;
    Base256Of(249, 229, 88, 71, 44);
    SameBits(W4, B4);
  }

  lemma Bits5()
    ensures Regroup.Stream(W5, 5) == Regroup.Stream(B5, 8)
  {
    Base32Of([], 9, 26, 28, 26);
    Base32Of([9, 26, 28, 26], 21, 11, 23, 26);
    assert [] + [9, 26, 28, 26] == [9, 26, 28, 26] && [9, 26, 28, 26] + [21, 11, 23, 26] == W5;
    Base256Of(78, 185, 170, 174, 250);
    SameBits(W5, B5);
  }

  lemma Bits6()
    ensures Regroup.Stream(W6[..4], 5) == Regroup.Stream(B6, 8) + Zeros(4)
  {
    Base32Of([], 8, 22, 14, 16);
    assert [] + [8, 22, 14, 16] == W6[..4];
    Base256Of(69, 157, 0, 0, 0);
    StreamOfWords(W6[..4]);
    StreamOfBytes(B6);
    AppendZeros(Base256(B6), 16);
  }

  const BYTES: seq<nat> := B0 + B1 + B2 + B3 + B4 + B5 + B6
  const WORDS: seq<nat> := W0 + W1 + W2 + W3 + W4 + W5 + W6[..4]

  lemma BitsAll()
    ensures Regroup.Stream(WORDS, 5) == Regroup.Stream(BYTES, 8) + Zeros(4)
  {
    Bits0();
    Bits1();
    Bits2();
    Bits3();
    Bits4();
    Bits5();
    Bits6();
    JoinBits(W0, B0, W1, B1);
    JoinBits(W0 + W1, B0 + B1, W2, B2);
    JoinBits(W0 + W1 + W2, B0 + B1 + B2, W3, B3);
    JoinBits(W0 + W1 + W2 + W3, B0 + B1 + B2 + B3, W4, B4);
    JoinBits(W0 + W1 + W2 + W3 + W4, B0 + B1 + B2 + B3 + B4, W5, B5);
    var w, b := W0 + W1 + W2 + W3 + W4 + W5, B0 + B1 + B2 + B3 + B4 + B5;
    StreamOfTwo(w, W6[..4], 5);
    StreamOfTwo(b, B6, 8);
    Regroup.Associate(Regroup.Stream(b, 8), Regroup.Stream(B6, 8), Zeros(4));
  }

  lemma JoinBits(v: seq<nat>, a: seq<nat>, w: seq<nat>, b: seq<nat>)
    requires Regroup.Stream(v, 5) == Regroup.Stream(a, 8) && Regroup.Stream(w, 5) == Regroup.Stream(b, 8)
    ensures Regroup.Stream(v + w, 5) == Regroup.Stream(a + b, 8)
  {
    StreamOfTwo(v, w, 5);
    StreamOfTwo(a, b, 8);
  }

  lemma {:induction false} HexOfTwo(a: seq<nat>, b: seq<nat>)
    ensures Hex(a + b) == Hex(a) + Hex(b)
    decreases |a|
  {
    if a == [] {
      assert a + b == b;
    } else {
      HexOfTwo(a[1..], b);
      assert (a + b)[1..] == a[1..] + b;
    }
  }

  lemma HexOfFive(a: nat, b: nat, c: nat, d: nat, e: nat)
    ensures Hex([a, b]) == [HexLetter(a / 16 % 16), HexLetter(a % 16), HexLetter(b / 16 % 16), HexLetter(b % 16)]
    ensures Hex([a, b, c, d, e]) == Hex([a, b]) + Hex([c, d]) + Hex([e])
    ensures Hex([e]) == [HexLetter(e / 16 % 16), HexLetter(e % 16)]
  {
    assert [a, b][1..] == [b] && [b][1..] == [] && [e][1..] == [];
    assert Hex([b]) == [HexLetter(b / 16 % 16), HexLetter(b % 16)];
    assert [a, b, c, d, e] == [a, b] + [c, d] + [e];
    HexOfTwo([a, b] + [c, d], [e]);
    HexOfTwo([a, b], [c, d]);
  }

  lemma Hex0()
    ensures Hex(B0) == "3bf0c63fcb"
  {
    HexOfFive(59, 240, 198, 63, 203);
    HexOfFive(198, 63, 0, 0, 0);
  }

  lemma Hex1()
    ensures Hex(B1) == "93463407af"
  {
    HexOfFive(147, 70, 52, 7, 175);
    HexOfFive(52, 7, 0, 0, 0);
  }

  lemma Hex2()
    ensures Hex(B2) == "97a5e5ee64"
  {
    HexOfFive(151, 165, 229, 238, 100);
    HexOfFive(229, 238, 0, 0, 0);
  }

  lemma Hex3()
    ensures Hex(B3) == "fa883d107e"
  {
    HexOfFive(250, 136, 61, 16, 126);
    HexOfFive(61, 16, 0, 0, 0);
  }

  lemma Hex4()
    ensures Hex(B4) == "f9e558472c"
  {
    HexOfFive(249, 229, 88, 71, 44);
    HexOfFive(88, 71, 0, 0, 0);
  }

  lemma Hex5()
    ensures Hex(B5) == "4eb9aaaefa"
  {
    HexOfFive(78, 185, 170, 174, 250);
    HexOfFive(170, 174, 0, 0, 0);
  }

  lemma Hex6()
    ensures Hex(B6) == "459d"
  {
    HexOfFive(69, 157, 0, 0, 0);
  }

  const KEY: string := "3bf0c63fcb" + "93463407af" + "97a5e5ee64" + "fa883d107e" + "f9e558472c" + "4eb9aaaefa" + "459d"

  lemma HexAll()
    ensures Hex(BYTES) == KEY
  {
    Hex0();
    Hex1();
    Hex2();
    Hex3();
    Hex4();
    Hex5();
    Hex6();
    HexOfTwo(B0, B1);
    HexOfTwo(B0 + B1, B2);
    HexOfTwo(B0 + B1 + B2, B3);
    HexOfTwo(B0 + B1 + B2 + B3, B4);
    HexOfTwo(B0 + B1 + B2 + B3 + B4, B5);
    HexOfTwo(B0 + B1 + B2 + B3 + B4 + B5, B6);
  }

  lemma ConvertsTo(ws: seq<nat>, bs: seq<nat>)
    requires Below32(ws) && Below256(bs) && Regroup.Stream(ws, 5) == Regroup.Stream(bs, 8) + Zeros(4)
    ensures Regroup.Convert(ws, 5, 8, false) == Ok(bs)
  {
    assert Pow2(5) == 32 && Pow2(8) == 256;
    Regroup.CutUnique(bs, Zeros(4), 8);
  }

  lemma Below(a: seq<nat>, b: seq<nat>)
    ensures Below32(a) && Below32(b) ==> Below32(a + b)
    ensures Below256(a) && Below256(b) ==> Below256(a + b)
  {
  }

  lemma LinkWords(w: seq<nat>)
    requires w == W0 + W1 + W2 + W3 + W4 + W5 + W6
    ensures [3] + P + W0 + W1 + W2 + W3 + W4 + W5 + W6 == [3] + P + w
    ensures |w| == 58 && w[..52] == WORDS
  {
  }

  lemma ReadBelow(s: string)
    requires AllLetters(s)
    ensures Below32(WordsOf(s))
  {
  }

  lemma WordsBelow()
    ensures Below32(WORDS)
  {
    ReadsAll();
    ReadBelow(LETTERS);
    LinkWords(WordsOf(LETTERS));
  }

  lemma FrontBytesBelow()
    ensures Below256(B0 + B1 + B2 + B3)
  {
    Below(B0, B1);
    Below(B0 + B1, B2);
    Below(B0 + B1 + B2, B3);
  }

  lemma BytesBelow()
    ensures Below256(BYTES)
  {
    FrontBytesBelow();
    Below(B0 + B1 + B2 + B3, B4);
    Below(B0 + B1 + B2 + B3 + B4, B5);
    Below(B0 + B1 + B2 + B3 + B4 + B5, B6);
  }

  lemma Converts()
    ensures Regroup.Convert(WORDS, 5, 8, false) == Ok(BYTES)
  {
    BitsAll();
    WordsBelow();
    BytesBelow();
    ConvertsTo(WORDS, BYTES);
  }

  lemma ExpandNpub()
    ensures Expand("npub") == [3] + P
  {
    assert "npub"[0] as int == 110 && "npub"[1] as int == 112 && "npub"[2] as int == 117 && "npub"[3] as int == 98;
  }

  lemma UnsealsTo(prefix: string, letters: string, words: seq<nat>, data: seq<nat>, bytes: seq<nat>)
    requires AllLetters(letters) && WordsOf(letters) == words && |words| >= 7 && words[..|words| - 6] == data
    requires Polymod(Expand(prefix) + words) == ONE && Regroup.Convert(data, 5, 8, false) == Ok(bytes)
    ensures Unseal(prefix, letters) == Ok(bytes)
  {
  }

  lemma Unseals()
    ensures Unseal("npub", LETTERS) == Ok(BYTES)
  {
    ReadsAll();
    ExpandNpub();
    Checks();
    LinkWords(WordsOf(LETTERS));
    Converts();
    UnsealsTo("npub", LETTERS, WordsOf(LETTERS), WORDS, BYTES);
  }

  /** The published key has the published `npub`, in both directions. */
  lemma PublishedExample()
    ensures Decode(LINK) == Ok(Parsed(KEY, Npub, false)) && NpubOf(KEY) == LINK
  {
    Unseals();
    ReadsAll();
    HexAll();
    assert LINK == "npub" + "1" + LETTERS;
    DecodeSplits("npub", LETTERS);
    NpubCanonical(LINK, Parsed(KEY, Npub, false));
  }
}
