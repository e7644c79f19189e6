/**
Answers on which two ways to cut the stream disagree, for every document limit and every
size of a read for which there can be any.
*/
module HttpWitness {
  import opened Common
  import opened Http
  import opened HttpCuts

  // Content lengths, with leading zeros.

  function Decimal(n: nat): (r: Bytes)
    ensures r != []
  {
    if n < 10 then [48 + n] else Decimal(n / 10) + [48 + n % 10]
  }

  predicate Numeric(s: Bytes) { s != [] && forall i | 0 <= i < |s| :: 48 <= s[i] <= 57 }

  function ZeroDigits(n: nat): (r: Bytes)
    ensures |r| == n && forall i | 0 <= i < n :: r[i] == 48
  {
    seq(n, _ => 48)
  }

  function Numeral(zeros: nat, n: nat): (r: Bytes)
    ensures |r| == zeros + |Decimal(n)|
  {
    ZeroDigits(zeros) + Decimal(n)
  }

  lemma {:induction false} ZerosAreZero(n: nat)
    ensures Digits(ZeroDigits(n), 10) == Some(0)
  {
    if n > 0 {
      ZerosAreZero(n - 1);
      assert ZeroDigits(n)[..n - 1] == ZeroDigits(n - 1);
    }
  }

  lemma DigitReads(low: nat)
    requires low < 10
    ensures Digit(48 + low, 10) == Some(low)
  {
  }

  lemma DigitsEnd(all: Bytes, radix: nat, high: nat, low: nat)
    requires all != [] && Digits(all[..|all| - 1], radix) == Some(high) && Digit(all[|all| - 1], radix) == Some(low)
    ensures Digits(all, radix) == Some(high * radix + low)
  {
  }

  lemma OneMoreDigit(front: Bytes, high: nat, low: nat)
    requires Digits(front, 10) == Some(high) && low < 10
    ensures Digits(front + [48 + low], 10) == Some(high * 10 + low)
  {
    var all: Bytes := front + [48 + low];
    assert all[..|all| - 1] == front && all[|all| - 1] == 48 + low;
    DigitReads(low);
    DigitsEnd(all, 10, high, low);
  }

  lemma NumeralGrows(zeros: nat, n: nat)
    requires n >= 10
    ensures Numeral(zeros, n) == Numeral(zeros, n / 10) + [48 + n % 10]
  {
  }

  lemma {:induction false} NumeralReads(zeros: nat, n: nat)
    ensures Numeric(Numeral(zeros, n)) && Digits(Numeral(zeros, n), 10) == Some(n)
  {
    if n < 10 {
      ZerosAreZero(zeros);
      OneMoreDigit(ZeroDigits(zeros), 0, n);
    } else {
      NumeralReads(zeros, n / 10);
      NumeralGrows(zeros, n);
      OneMoreDigit(Numeral(zeros, n / 10), n / 10, n % 10);
    }
  }

  function Pow10(k: nat): nat { if k == 0 then 1 else 10 * Pow10(k - 1) }

  lemma {:induction false} DecimalLength(n: nat, k: nat)
    requires n < Pow10(k) && k > 0
    ensures |Decimal(n)| <= k
  {
    if n >= 10 { DecimalLength(n / 10, k - 1); }
  }

  lemma {:induction false} Pow10Sum(j: nat, k: nat)
    ensures Pow10(j + k) == Pow10(j) * Pow10(k)
  {
    if j > 0 { Pow10Sum(j - 1, k); }
  }

  lemma DecimalIsShort(n: nat)
    requires n <= USIZE_MAX
    ensures |Decimal(n)| <= 20
  {
    assert Pow10(2) == 100 && Pow10(4) == 10_000 && Pow10(5) == 100_000;
    Pow10Sum(5, 5);
    Pow10Sum(10, 10);
    DecimalLength(n, 20);
  }

  // The answer.

  const STATUS_LINE: Bytes := [72, 84, 84, 80, 47, 49, 46, 49, 32, 50, 48, 48]
  const LENGTH_FIELD: Bytes := [67, 111, 110, 116, 101, 110, 116, 45, 76, 101, 110, 103, 116, 104, 58]

  /** A status 200, a content length, a blank line, and what follows. */
  function Answer200(digits: Bytes, after: Bytes): Bytes { Block(digits) + BLANK + after }

  function Block(digits: Bytes): (r: Bytes)
    ensures |r| == 29 + |digits|
  {
    STATUS_LINE + CRLF + LENGTH_FIELD + digits
  }

  lemma NumericTrims(digits: Bytes)
    requires Numeric(digits)
    ensures Trim(digits) == digits && digits[0] != 43
  {
    assert 48 <= digits[0] && 48 <= digits[|digits| - 1];
  }

  lemma FieldReads(digits: Bytes, n: nat, head: Head)
    requires Numeric(digits) && Digits(digits, 10) == Some(n) && n <= USIZE_MAX
    ensures ReadHeader(head, LENGTH_FIELD + digits) == Some(head.(length := Some(n)))
  {
    var line := LENGTH_FIELD + digits;
    assert line[14..15] == [58];
    assert At(line, [58], 14);
    forall j: nat | j < 14 ensures !At(line, [58], j) {
      assert line[j..j + 1][0] == line[j] == LENGTH_FIELD[j];
    }
    assert line[..14] == LENGTH_FIELD[..14] && line[15..] == digits;
    assert Lower(line[..14]) == CONTENT_LENGTH;
    NumericTrims(digits);
  }

  lemma StatusReads()
    ensures StatusOf(STATUS_LINE) == Some(200)
  {
    var s := STATUS_LINE;
    assert s[8..9] == [32];
    assert At(s, [32], 8);
    forall j: nat | j < 8 ensures !At(s, [32], j) { assert s[j..j + 1][0] == s[j]; }
    assert s[..8] == HTTP_1_1 && s[9..] == [50, 48, 48];
    var t: Bytes := [50, 48, 48];
    forall j: nat ensures !At(t, [32], j) {
      if j + 1 <= |t| { assert t[j..j + 1][0] == t[j]; }
    }
    assert Split(s, [32]) == [s[..8]] + Split(t, [32]) && Split(t, [32]) == [t];
    assert t[..2] == [50, 48] && t[..2][..1] == [50] && t[..2][..1][..0] == [];
    assert Digits(t[..2][..1], 10) == Some(2);
    assert Digits(t[..2], 10) == Some(20);
    assert Digits(t, 10) == Some(200);
  }

  lemma BlockLines(digits: Bytes)
    requires Numeric(digits)
    ensures Split(Block(digits), CRLF) == [STATUS_LINE, LENGTH_FIELD + digits]
  {
    var s, line := Block(digits), LENGTH_FIELD + digits;
    assert s[12..14] == CRLF && s[..12] == STATUS_LINE && s[14..] == line;
    assert At(s, CRLF, 12);
    forall j: nat | j < 12 ensures !At(s, CRLF, j) { assert s[j..j + 2][0] == s[j] == STATUS_LINE[j]; }
    OneLine(digits);
    assert Split(s, CRLF) == [STATUS_LINE] + Split(line, CRLF);
  }

  lemma OneLine(digits: Bytes)
    requires Numeric(digits)
    ensures Split(LENGTH_FIELD + digits, CRLF) == [LENGTH_FIELD + digits]
  {
    var line := LENGTH_FIELD + digits;
    forall j: nat ensures !At(line, CRLF, j) {
      if j + 2 <= |line| { assert line[j..j + 2][0] == line[j]; }
    }
  }

  lemma BlockReads(digits: Bytes, n: nat)
    requires Numeric(digits) && Digits(digits, 10) == Some(n) && n <= USIZE_MAX
    ensures ReadHead(Block(digits)) == Some(Head(200, Some(n), false))
  {
    var head, line := Head(200, None, false), LENGTH_FIELD + digits;
    BlockLines(digits);
    StatusReads();
    FieldReads(digits, n, head);
    var lines: seq<Bytes> := [line];
    assert [STATUS_LINE, line][1..] == lines && lines[..0] == [];
    assert ReadHeaders(head, [line]) == ReadHeader(head, line);
  }

  lemma BlankOf(digits: Bytes, after: Bytes)
    requires Numeric(digits)
    ensures Find(Answer200(digits, after), BLANK) == Some(29 + |digits|)
  {
    var s, n := Answer200(digits, after), |digits|;
    assert s[29 + n..33 + n] == BLANK;
    assert At(s, BLANK, 29 + n);
    forall j: nat | j < 29 + n ensures !At(s, BLANK, j) {
      assert s[j..j + 4][0] == s[j] == Block(digits)[j];
      if j == 12 { assert s[j..j + 4][2] == s[14] == LENGTH_FIELD[0]; }
    }
  }

  const ALL_TEXT: Bytes -> bool := (_: Bytes) => true

  /** The digits of a content length within the document limit. */
  predicate Declares(digits: Bytes, n: nat, maxDocument: nat) {
    Numeric(digits) && Digits(digits, 10) == Some(n) && n <= USIZE_MAX && n <= maxDocument
  }

  lemma ContentOf(digits: Bytes, n: nat, after: Bytes, maxDocument: nat)
    requires Declares(digits, n, maxDocument)
    ensures Content(Env(ALL_TEXT, maxDocument), Answer200(digits, after), false)
         == if |after| < n then Ok(None) else Ok(Some(after[..n]))
  {
    var s := Answer200(digits, after);
    BlankOf(digits, after);
    BlockReads(digits, n);
    assert s[..29 + |digits|] == Block(digits) && s[33 + |digits|..] == after;
  }

  lemma FrontOf(digits: Bytes, after: Bytes, k: nat)
    requires k <= |after|
    ensures 33 + |digits| + k <= |Answer200(digits, after)|
    ensures Answer200(digits, after)[..33 + |digits| + k] == Answer200(digits, after[..k])
  {
  }

  lemma KnownOf(digits: Bytes, n: nat, after: Bytes, maxDocument: nat, k: nat)
    requires Declares(digits, n, maxDocument) && k <= |after|
    ensures 33 + |digits| + k <= |Answer200(digits, after)|
    ensures Known(Env(ALL_TEXT, maxDocument), Answer200(digits, after), 33 + |digits| + k) <==> k >= n
  {
    FrontOf(digits, after, k);
    ContentOf(digits, n, after[..k], maxDocument);
  }

  lemma AtMost(digits: Bytes, n: nat, after: Bytes, maxDocument: nat)
    requires Declares(digits, n, maxDocument) && n <= |after|
    ensures Point(Env(ALL_TEXT, maxDocument), Answer200(digits, after)) <= 33 + |digits| + n
  {
    KnownOf(digits, n, after, maxDocument, n);
    PointBound(Env(ALL_TEXT, maxDocument), Answer200(digits, after), 33 + |digits| + n);
  }

  lemma AtLeast(digits: Bytes, n: nat, after: Bytes, maxDocument: nat)
    requires Declares(digits, n, maxDocument) && 0 < n <= |after|
    ensures 33 + |digits| + n <= Point(Env(ALL_TEXT, maxDocument), Answer200(digits, after))
  {
    KnownOf(digits, n, after, maxDocument, n - 1);
    NotKnownBeforePoint(Env(ALL_TEXT, maxDocument), Answer200(digits, after), 33 + |digits| + n - 1);
  }

  lemma AfterBlank(digits: Bytes, after: Bytes, maxDocument: nat)
    requires Numeric(digits)
    ensures BlankEnd(Answer200(digits, after)) == Some(33 + |digits|)
    ensures 33 + |digits| <= Point(Env(ALL_TEXT, maxDocument), Answer200(digits, after))
  {
    BlankOf(digits, after);
    PointAfterHeader(Env(ALL_TEXT, maxDocument), Answer200(digits, after));
  }

  /** Its content is known at the end of its body and no sooner. */
  lemma PointOf(digits: Bytes, n: nat, after: Bytes, maxDocument: nat)
    requires Declares(digits, n, maxDocument) && n <= |after|
    ensures BlankEnd(Answer200(digits, after)) == Some(33 + |digits|)
    ensures Point(Env(ALL_TEXT, maxDocument), Answer200(digits, after)) == 33 + |digits| + n
  {
    AfterBlank(digits, after, maxDocument);
    AtMost(digits, n, after, maxDocument);
    if n > 0 { AtLeast(digits, n, after, maxDocument); }
  }

  lemma PlainOf(digits: Bytes, n: nat, after: Bytes, maxDocument: nat)
    requires Declares(digits, n, maxDocument) && n <= |after|
    ensures Plain(Env(ALL_TEXT, maxDocument), Answer200(digits, after)) == Ok(after[..n])
  {
    var env, s := Env(ALL_TEXT, maxDocument), Answer200(digits, after);
    ContentOf(digits, n, after, maxDocument);
    VerdictStands(env, s, [], true);
    assert s + [] == s;
  }

  /** What makes two cuts of a readable stream disagree. */
  lemma Disagree(env: Env, s: Bytes, limit: nat, blank: nat, point: nat)
    requires BlankEnd(s) == Some(blank) && Point(env, s) == point && Plain(env, s).Ok? && limit >= 2
    requires point <= Cap(env) && blank <= MAX_HEADER_BYTES + limit
    requires blank > MAX_HEADER_BYTES + 1 || (|s| > Cap(env) && point + limit > Cap(env) + 1)
    ensures !CutsAgree(env, s, limit)
  {
    CutsAgreeIff(env, s, limit);
  }

  /** A header block of 16386 bytes is read, or refused, as the reads fall. */
  lemma LongHeaderDisagrees(maxDocument: nat, limit: nat)
    requires maxDocument >= 2 && limit >= 2
    ensures !CutsAgree(Env(ALL_TEXT, maxDocument), Answer200(Numeral(16352, 0), []), limit)
  {
    var digits := Numeral(16352, 0);
    NumeralReads(16352, 0);
    PointOf(digits, 0, [], maxDocument);
    PlainOf(digits, 0, [], maxDocument);
    Disagree(Env(ALL_TEXT, maxDocument), Answer200(digits, []), limit, 16386, 16386);
  }

  /** The answer with a header block of 16384 bytes, a document as large as allowed, and one byte more. */
  lemma BrimfulDisagrees(digits: Bytes, after: Bytes, maxDocument: nat, limit: nat)
    requires Declares(digits, maxDocument, maxDocument) && limit >= 2
    requires |digits| == 16351 && |after| == maxDocument + 1
    ensures !CutsAgree(Env(ALL_TEXT, maxDocument), Answer200(digits, after), limit)
  {
    PointOf(digits, maxDocument, after, maxDocument);
    PlainOf(digits, maxDocument, after, maxDocument);
    Disagree(Env(ALL_TEXT, maxDocument), Answer200(digits, after), limit, 16384, 16384 + maxDocument);
  }

  /** That byte comes with the last read and is too much, or is never read. */
  lemma TrailingByteDisagrees(maxDocument: nat, limit: nat) returns (digits: Bytes)
    requires maxDocument <= USIZE_MAX && limit >= 2
    ensures !CutsAgree(Env(ALL_TEXT, maxDocument), Answer200(digits, ZeroDigits(maxDocument + 1)), limit)
  {
    DecimalIsShort(maxDocument);
    digits := Numeral(16351 - |Decimal(maxDocument)|, maxDocument);
    NumeralReads(16351 - |Decimal(maxDocument)|, maxDocument);
    BrimfulDisagrees(digits, ZeroDigits(maxDocument + 1), maxDocument, limit);
  }
}
