/**
An encoder for the chunked coding of section 7.1 of RFC 9112, independent of the reader:
sizes in hexadecimal of either case, with any chunk extension, and the reader's answer to
what it writes.
*/
module HttpEncoder {
  import opened Common
  import opened Http

  const SEMICOLON: byte := 59

  function HexDigit(v: nat, upper: bool): byte
    requires v < 16
  {
    if v < 10 then 48 + v else if upper then 55 + v else 87 + v
  }

  /** `n` in hexadecimal, without leading zeros. */
  function HexText(n: nat, upper: bool): (r: Bytes)
    ensures r != []
  {
    if n < 16 then [HexDigit(n, upper)] else HexText(n / 16, upper) + [HexDigit(n % 16, upper)]
  }

  predicate IsHexDigit(c: byte) { 48 <= c <= 57 || 65 <= c <= 70 || 97 <= c <= 102 }

  lemma {:induction false} HexTextDigits(n: nat, upper: bool)
    ensures forall i | 0 <= i < |HexText(n, upper)| :: IsHexDigit(HexText(n, upper)[i])
    ensures Digits(HexText(n, upper), 16) == Some(n)
  {
    var s := HexText(n, upper);
    assert Digit(HexDigit(n % 16, upper), 16) == Some(n % 16);
    if n < 16 {
      assert s[..|s| - 1] == [];
    } else {
      HexTextDigits(n / 16, upper);
      assert s[..|s| - 1] == HexText(n / 16, upper);
    }
  }

  /** Nothing, or a semicolon and ASCII text without a line break. */
  predicate Extension(ext: Bytes) {
    (ext == [] || ext[0] == SEMICOLON) && Find(ext, CRLF).None? && forall i | 0 <= i < |ext| :: ext[i] < 128
  }

  ghost predicate AsciiIsUtf8(utf8: Bytes -> bool) {
    forall s | (forall i | 0 <= i < |s| :: s[i] < 128) :: utf8(s)
  }

  lemma {:induction false} BeforeExtension(digits: Bytes, ext: Bytes)
    requires (forall i | 0 <= i < |digits| :: digits[i] != SEMICOLON) && (ext == [] || ext[0] == SEMICOLON)
    ensures Before(digits + ext, SEMICOLON) == digits
    decreases |digits|
  {
    if digits == [] {
      assert digits + ext == ext;
    } else {
      BeforeExtension(digits[1..], ext);
      assert (digits + ext)[1..] == digits[1..] + ext && (digits + ext)[0] == digits[0];
    }
  }

  lemma NoBreakInLine(digits: Bytes, ext: Bytes)
    requires (forall i | 0 <= i < |digits| :: IsHexDigit(digits[i])) && Find(ext, CRLF).None?
    ensures Find(digits + ext, CRLF).None?
  {
    var line := digits + ext;
    if Find(line, CRLF).Some? {
      var i := Find(line, CRLF).value;
      assert line[i] == line[i..i + 2][0] == CR;
      assert ext[i - |digits|..i - |digits| + 2] == line[i..i + 2];
      assert At(ext, CRLF, i - |digits|);
    }
  }

  /** The size line announces the size, as far as the machine can count, to any reader that takes ASCII for UTF-8. */
  lemma HexAnnounces(utf8: Bytes -> bool, n: nat, upper: bool, ext: Bytes)
    requires AsciiIsUtf8(utf8) && Extension(ext)
    ensures Find(HexText(n, upper) + ext, CRLF).None?
    ensures SizeOf(utf8, HexText(n, upper) + ext) == if n <= USIZE_MAX then Some(n) else None
  {
    var digits := HexText(n, upper);
    HexTextDigits(n, upper);
    LineIsAscii(digits, ext);
    BeforeExtension(digits, ext);
    NoBreakInLine(digits, ext);
    TrimsToItself(digits);
  }

  lemma LineIsAscii(digits: Bytes, ext: Bytes)
    requires (forall i | 0 <= i < |digits| :: IsHexDigit(digits[i])) && Extension(ext)
    ensures forall i | 0 <= i < |digits + ext| :: (digits + ext)[i] < 128
    ensures forall i | 0 <= i < |digits| :: digits[i] != SEMICOLON
  {
  }

  lemma TrimsToItself(digits: Bytes)
    requires digits != [] && forall i | 0 <= i < |digits| :: IsHexDigit(digits[i])
    ensures Trim(digits) == digits && digits[0] != 43
  {
    assert IsHexDigit(digits[0]) && IsHexDigit(digits[|digits| - 1]);
  }

  /** One chunk per piece of data. */
  function Chunks(data: seq<Bytes>, upper: bool, ext: Bytes): (r: seq<Piece>)
    ensures |r| == |data| && forall i | 0 <= i < |data| :: r[i] == Piece(HexText(|data[i]|, upper) + ext, data[i])
  {
    seq(|data|, i requires 0 <= i < |data| => Piece(HexText(|data[i]|, upper) + ext, data[i]))
  }

  /** All chunks and the last one, without its trailers. */
  function Coded(data: seq<Bytes>, upper: bool, ext: Bytes): Bytes {
    Encode(Chunks(data, upper, ext), HexText(0, upper) + ext)
  }

  lemma {:induction false} JoinedIsWhole(data: seq<Bytes>, upper: bool, ext: Bytes)
    ensures Joined(Chunks(data, upper, ext)) == Whole(data)
    decreases |data|
  {
    if data != [] {
      assert Chunks(data, upper, ext)[1..] == Chunks(data[1..], upper, ext);
      JoinedIsWhole(data[1..], upper, ext);
    }
  }

  /**
  What the encoder writes, followed by any trailers or other bytes, decodes to the data; and
  every proper front part of it is incomplete and no error.
  */
  lemma CodedDecodes(utf8: Bytes -> bool, data: seq<Bytes>, upper: bool, ext: Bytes, tail: Bytes, cut: nat)
    requires AsciiIsUtf8(utf8) && Extension(ext)
    requires forall i | 0 <= i < |data| :: data[i] != [] && |data[i]| + 2 <= USIZE_MAX
    ensures DecodeChunked(utf8, Coded(data, upper, ext) + tail, []) == Ok(Some(Whole(data)))
    ensures cut < |Coded(data, upper, ext)| ==> DecodeChunked(utf8, Coded(data, upper, ext)[..cut], []) == Ok(None)
  {
    var chunks, last := Chunks(data, upper, ext), HexText(0, upper) + ext;
    forall i | 0 <= i < |chunks| ensures GoodPiece(utf8, chunks[i]) {
      HexAnnounces(utf8, |data[i]|, upper, ext);
    }
    HexAnnounces(utf8, 0, upper, ext);
    DecodeEncoded(utf8, chunks, last, tail, []);
    JoinedIsWhole(data, upper, ext);
    assert [] + Whole(data) == Whole(data);
    if cut < |Coded(data, upper, ext)| { PrefixIncomplete(utf8, chunks, last, cut, []); }
  }

  /** Eighteen bytes that abort the decoder: a chunk size two below the machine's modulus. */
  lemma HugeSizeAborts(utf8: Bytes -> bool, upper: bool)
    requires AsciiIsUtf8(utf8)
    ensures DecodeChunked(utf8, HexText(USIZE_MAX - 1, upper) + CRLF, []) == Err(Aborted)
  {
    var line := HexText(USIZE_MAX - 1, upper);
    assert line + [] == line && Encode([], line) + [] == line + CRLF;
    HexAnnounces(utf8, USIZE_MAX - 1, upper, []);
    OverflowAborts(utf8, line + CRLF, [], line, [], []);
  }
}
