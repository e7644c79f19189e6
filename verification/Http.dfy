/**
Reading one HTTP/1.1 answer from a stream in pieces of any size: the header block,
the three ways a body is framed, and the chunked coding. Parsed numbers are those of a
64-bit machine, whose sums wrap around in the release profile; text is ASCII apart from the
UTF-8 check, which is handed in.
*/
module Http {
  import opened Common

  const MAX_HEADER_BYTES := 16384
  const USIZE_MAX: nat := 0xFFFF_FFFF_FFFF_FFFF
  const CR: byte := 13
  const LF: byte := 10
  const CRLF: Bytes := [CR, LF]
  const BLANK: Bytes := [CR, LF, CR, LF]

  /** `Aborted` is a slice out of range, which ends the process. */
  datatype Error = MalformedResponse | ResponseTooLarge | HttpStatus(status: nat) | Aborted

  type Verdict = Result<Option<Bytes>, Error>

  // Text.

  predicate At(s: Bytes, part: Bytes, i: nat) { i + |part| <= |s| && s[i..i + |part|] == part }

  /** The first position of `part` at or after `from`. */
  function FindFrom(s: Bytes, part: Bytes, from: nat): (r: Option<nat>)
    ensures r.Some? ==> from <= r.value && At(s, part, r.value)
    ensures r.Some? ==> forall i: nat | from <= i < r.value :: !At(s, part, i)
    ensures r.None? ==> forall i: nat | from <= i :: !At(s, part, i)
    decreases |s| - from
  {
    if from + |part| > |s| then None
    else if At(s, part, from) then Some(from)
    else FindFrom(s, part, from + 1)
  }

  function Find(s: Bytes, part: Bytes): Option<nat> { FindFrom(s, part, 0) }

  predicate Space(c: byte) { 9 <= c <= 13 || c == 32 }

  function Trim(s: Bytes): (r: Bytes)
    decreases |s|
  {
    if s != [] && Space(s[0]) then Trim(s[1..])
    else if s != [] && Space(s[|s| - 1]) then Trim(s[..|s| - 1])
    else s
  }

  function LowerByte(c: byte): byte { if 65 <= c <= 90 then c + 32 else c }

  function Lower(s: Bytes): Bytes { seq(|s|, i requires 0 <= i < |s| => LowerByte(s[i])) }

  /** What stands before the first `c`. */
  function Before(s: Bytes, c: byte): Bytes { if s == [] || s[0] == c then [] else [s[0]] + Before(s[1..], c) }

  /** The parts between separators; there is always at least one. */
  function Split(s: Bytes, separator: Bytes): (r: seq<Bytes>)
    requires separator != []
    ensures r != []
    decreases |s|
  {
    match Find(s, separator)
    case None => [s]
    case Some(i) => [s[..i]] + Split(s[i + |separator|..], separator)
  }

  function Digit(c: byte, radix: nat): Option<nat> {
    var v := if 48 <= c <= 57 then c - 48 else if 97 <= LowerByte(c) <= 102 then LowerByte(c) - 87 else 99;
    if v < radix then Some(v) else None
  }

  function Digits(s: Bytes, radix: nat): Option<nat> {
    if s == [] then Some(0)
    else match (Digits(s[..|s| - 1], radix), Digit(s[|s| - 1], radix))
      case (Some(high), Some(low)) => Some(high * radix + low)
      case _ => None
  }

  /** Rust's integer parsing: an optional `+`, then at least one digit, and no overflow. */
  function Number(s: Bytes, radix: nat): (r: Option<nat>)
    ensures r.Some? ==> r.value <= USIZE_MAX
  {
    var digits := if s != [] && s[0] == 43 then s[1..] else s;
    if digits == [] then None
    else match Digits(digits, radix)
      case None => None
      case Some(n) => if n <= USIZE_MAX then Some(n) else None
  }

  // The header block.

  datatype Head = Head(status: nat, length: Option<nat>, chunked: bool)

  const CONTENT_LENGTH: Bytes := [99, 111, 110, 116, 101, 110, 116, 45, 108, 101, 110, 103, 116, 104]
  const TRANSFER_ENCODING: Bytes :=
    [116, 114, 97, 110, 115, 102, 101, 114, 45, 101, 110, 99, 111, 100, 105, 110, 103]
  const CHUNKED: Bytes := [99, 104, 117, 110, 107, 101, 100]
  const HTTP_1_0: Bytes := [72, 84, 84, 80, 47, 49, 46, 48]
  const HTTP_1_1: Bytes := [72, 84, 84, 80, 47, 49, 46, 49]

  function ReadHeader(head: Head, line: Bytes): Option<Head> {
    match Find(line, [58])
    case None => None
    case Some(i) =>
      var name, value := Lower(line[..i]), Trim(line[i + 1..]);
      if name == CONTENT_LENGTH then
        match Number(value, 10)
        case None => None
        case Some(n) => Some(head.(length := Some(n)))
      else if name == TRANSFER_ENCODING && Find(Lower(value), CHUNKED).Some? then Some(head.(chunked := true))
      else Some(head)
  }

  function ReadHeaders(head: Head, lines: seq<Bytes>): Option<Head> {
    if lines == [] then Some(head)
    else match ReadHeaders(head, lines[..|lines| - 1])
      case None => None
      case Some(h) => ReadHeader(h, lines[|lines| - 1])
  }

  function StatusOf(line: Bytes): Option<nat> {
    var parts := Split(line, [32]);
    if (parts[0] != HTTP_1_1 && parts[0] != HTTP_1_0) || |parts| < 2 then None
    else match Number(parts[1], 10)
      case Some(n) => if n <= 65535 then Some(n) else None
      case None => None
  }

  function ReadHead(block: Bytes): Option<Head> {
    var lines := Split(block, CRLF);
    match StatusOf(lines[0])
    case None => None
    case Some(status) => ReadHeaders(Head(status, None, false), lines[1..])
  }

  /** The header loop, with its two flags. */
  method HeaderLoop(status: nat, lines: seq<Bytes>) returns (r: Option<Head>)
    ensures r == ReadHeaders(Head(status, None, false), lines)
  {
    var length, chunked := None, false;
    for i := 0 to |lines|
      invariant ReadHeaders(Head(status, None, false), lines[..i]) == Some(Head(status, length, chunked))
    {
      assert lines[..i + 1][..i] == lines[..i];
      var line := lines[i];
      match Find(line, [58])
      case None =>
        FailedHeaders(Head(status, None, false), lines, i + 1);
        return None;
      case Some(colon) =>
        var name, value := Lower(line[..colon]), Trim(line[colon + 1..]);
        if name == CONTENT_LENGTH {
          if Number(value, 10).None? {
            FailedHeaders(Head(status, None, false), lines, i + 1);
            return None;
          }
          length := Number(value, 10);
        } else if name == TRANSFER_ENCODING && Find(Lower(value), CHUNKED).Some? {
          chunked := true;
        }
    }
    assert lines[..|lines|] == lines;
    return Some(Head(status, length, chunked));
  }

  lemma {:induction false} FailedHeaders(head: Head, lines: seq<Bytes>, n: nat)
    requires n <= |lines| && ReadHeaders(head, lines[..n]).None?
    ensures ReadHeaders(head, lines).None?
    decreases |lines|
  {
    if n < |lines| {
      assert lines[..|lines| - 1][..n] == lines[..n];
      FailedHeaders(head, lines[..|lines| - 1], n);
    } else {
      assert lines[..n] == lines;
    }
  }

  // The chunked coding.

  /** The size a chunk's line announces, without its extensions. */
  function SizeOf(utf8: Bytes -> bool, line: Bytes): Option<nat> {
    if utf8(line) then Number(Trim(Before(line, 59)), 16) else None
  }

  datatype ChunkStep = NeedMore | Bad | Aborts | Last | Chunk(data: Bytes, rest: Bytes)

  /** `size + 2` in machine arithmetic. */
  function WithBreak(size: nat): nat { (size + 2) % (USIZE_MAX + 1) }

  /** What stands at the front of the body. */
  function NextChunk(utf8: Bytes -> bool, body: Bytes): (r: ChunkStep)
    ensures r.Chunk? ==> |r.rest| < |body|
  {
    match Find(body, CRLF)
    case None => NeedMore
    case Some(i) =>
      match SizeOf(utf8, body[..i])
      case None => Bad
      case Some(size) =>
        var rest := body[i + 2..];
        if size == 0 then Last
        else if |rest| < WithBreak(size) then NeedMore
        else if size + 2 > USIZE_MAX then Aborts
        else if rest[size..size + 2] != CRLF then Bad
        else Chunk(rest[..size], rest[size + 2..])
  }

  function DecodeChunked(utf8: Bytes -> bool, body: Bytes, decoded: Bytes): Verdict
    decreases |body|
  {
    match NextChunk(utf8, body)
    case NeedMore => Ok(None)
    case Bad => Err(MalformedResponse)
    case Aborts => Err(Aborted)
    case Last => Ok(Some(decoded))
    case Chunk(data, rest) => DecodeChunked(utf8, rest, decoded + data)
  }

  method DecodeLoop(utf8: Bytes -> bool, body: Bytes) returns (r: Verdict)
    ensures r == DecodeChunked(utf8, body, [])
  {
    var rest, decoded: Bytes := body, [];
    while true
      invariant DecodeChunked(utf8, body, []) == DecodeChunked(utf8, rest, decoded)
      decreases |rest|
    {
      var end := Find(rest, CRLF);
      if end.None? { return Ok(None); }
      var size := SizeOf(utf8, rest[..end.value]);
      if size.None? { return Err(MalformedResponse); }
      var n, after := size.value, rest[end.value + 2..];
      if n == 0 { return Ok(Some(decoded)); }
      if |after| < (n + 2) % (USIZE_MAX + 1) { return Ok(None); }
      if n + 2 > USIZE_MAX { return Err(Aborted); }
      if after[n..n + 2] != CRLF { return Err(MalformedResponse); }
      assert NextChunk(utf8, rest) == Chunk(after[..n], after[n + 2..]);
      decoded := decoded + after[..n];
      rest := after[n + 2..];
    }
  }

  // The whole answer.

  datatype Env = Env(utf8: Bytes -> bool, maxDocument: nat)

  function Body(env: Env, head: Head, body: Bytes, eof: bool): Verdict {
    if head.chunked then DecodeChunked(env.utf8, body, [])
    else if head.length.Some? then
      if |body| < head.length.value then Ok(None) else Ok(Some(body[..head.length.value]))
    else if eof then Ok(Some(body)) else Ok(None)
  }

  function Judge(env: Env, status: nat, body: Verdict): Verdict {
    if body.Err? || body.value.None? then body
    else if status != 200 then Err(HttpStatus(status))
    else if |body.value.value| > env.maxDocument then Err(ResponseTooLarge)
    else body
  }

  /** What the header block says of the body after it. */
  function AfterHead(env: Env, block: Bytes, body: Bytes, eof: bool): Verdict {
    if !env.utf8(block) then Err(MalformedResponse)
    else match ReadHead(block)
      case None => Err(MalformedResponse)
      case Some(head) => Judge(env, head.status, Body(env, head, body, eof))
  }

  /** What the bytes say, whatever the limits. */
  function Content(env: Env, buffer: Bytes, eof: bool): Verdict {
    match Find(buffer, BLANK)
    case None => Ok(None)
    case Some(split) => AfterHead(env, buffer[..split], buffer[split + 4..], eof)
  }

  function TryComplete(env: Env, buffer: Bytes, eof: bool): Verdict {
    if Find(buffer, BLANK).None? && |buffer| > MAX_HEADER_BYTES then Err(ResponseTooLarge) else Content(env, buffer, eof)
  }

  /** What the reader returns after these pieces and the end of the stream. */
  function Exchange(env: Env, buffer: Bytes, pieces: seq<Bytes>): Result<Bytes, Error>
    decreases |pieces|
  {
    if pieces == [] then
      match TryComplete(env, buffer, true)
      case Err(e) => Err(e)
      case Ok(None) => Err(MalformedResponse)
      case Ok(Some(body)) => Ok(body)
    else
      var grown := buffer + pieces[0];
      if |grown| > MAX_HEADER_BYTES + env.maxDocument then Err(ResponseTooLarge)
      else match TryComplete(env, grown, false)
        case Err(e) => Err(e)
        case Ok(Some(body)) => Ok(body)
        case Ok(None) => Exchange(env, grown, pieces[1..])
  }

  /** The read loop. */
  method ExchangeLoop(env: Env, pieces: seq<Bytes>) returns (r: Result<Bytes, Error>)
    ensures r == Exchange(env, [], pieces)
  {
    var buffer: Bytes, i := [], 0;
    while i < |pieces|
      invariant i <= |pieces| && Exchange(env, [], pieces) == Exchange(env, buffer, pieces[i..])
    {
      assert pieces[i..][1..] == pieces[i + 1..];
      buffer := buffer + pieces[i];
      if |buffer| > MAX_HEADER_BYTES + env.maxDocument { return Err(ResponseTooLarge); }
      var verdict := TryComplete(env, buffer, false);
      if verdict.Err? { return Err(verdict.error); }
      if verdict.value.Some? { return Ok(verdict.value.value); }
      i := i + 1;
    }
    var verdict := TryComplete(env, buffer, true);
    if verdict.Err? { return Err(verdict.error); }
    if verdict.value.None? { return Err(MalformedResponse); }
    return Ok(verdict.value.value);
  }

  // More bytes never change a verdict.

  lemma FindGrows(s: Bytes, part: Bytes, more: Bytes)
    requires Find(s, part).Some?
    ensures Find(s + more, part) == Find(s, part)
  {
    var i := Find(s, part).value;
    assert At(s + more, part, i) by { assert (s + more)[i..i + |part|] == s[i..i + |part|]; }
    forall j: nat | j < i ensures !At(s + more, part, j) {
      assert !At(s, part, j);
      if j + |part| <= |s| { assert (s + more)[j..j + |part|] == s[j..j + |part|]; }
    }
  }

  function Grown(step: ChunkStep, more: Bytes): ChunkStep {
    if step.Chunk? then Chunk(step.data, step.rest + more) else step
  }

  lemma SplitGrows(body: Bytes, more: Bytes, i: nat)
    requires i + 2 <= |body|
    ensures (body + more)[..i] == body[..i] && (body + more)[i + 2..] == body[i + 2..] + more
    ensures (body + more)[i..i + 2] == body[i..i + 2]
  {
  }

  lemma ChunkGrows(utf8: Bytes -> bool, body: Bytes, more: Bytes)
    requires NextChunk(utf8, body) != NeedMore
    ensures NextChunk(utf8, body + more) == Grown(NextChunk(utf8, body), more)
  {
    var i := Find(body, CRLF).value;
    FindGrows(body, CRLF, more);
    SplitGrows(body, more, i);
    var size := SizeOf(utf8, body[..i]);
    if size.Some? && size.value > 0 && size.value + 2 <= USIZE_MAX { SplitGrows(body[i + 2..], more, size.value); }
  }

  lemma {:induction false} ChunksGrow(utf8: Bytes -> bool, body: Bytes, decoded: Bytes, more: Bytes)
    requires DecodeChunked(utf8, body, decoded) != Ok(None)
    ensures DecodeChunked(utf8, body + more, decoded) == DecodeChunked(utf8, body, decoded)
    decreases |body|
  {
    ChunkGrows(utf8, body, more);
    var step := NextChunk(utf8, body);
    if step.Chunk? { ChunksGrow(utf8, step.rest, decoded + step.data, more); }
  }

  /** A verdict on the content stands: no further bytes and no end of stream change it. */
  lemma VerdictStands(env: Env, buffer: Bytes, more: Bytes, eof: bool)
    requires Content(env, buffer, false) != Ok(None)
    ensures Content(env, buffer + more, eof) == Content(env, buffer, false)
  {
    var split := Find(buffer, BLANK).value;
    FindGrows(buffer, BLANK, more);
    assert (buffer + more)[..split] == buffer[..split];
    assert (buffer + more)[split + 4..] == buffer[split + 4..] + more;
    AfterHeadStands(env, buffer[..split], buffer[split + 4..], more, eof);
  }

  lemma AfterHeadStands(env: Env, block: Bytes, body: Bytes, more: Bytes, eof: bool)
    requires AfterHead(env, block, body, false) != Ok(None)
    ensures AfterHead(env, block, body + more, eof) == AfterHead(env, block, body, false)
  {
    var head := ReadHead(block);
    if env.utf8(block) && head.Some? { BodyStands(env, head.value, body, more, eof); }
  }

  lemma BodyStands(env: Env, head: Head, body: Bytes, more: Bytes, eof: bool)
    requires Body(env, head, body, false) != Ok(None)
    ensures Body(env, head, body + more, eof) == Body(env, head, body, false)
  {
    if head.chunked {
      ChunksGrow(env.utf8, body, [], more);
    } else if head.length.Some? {
      assert (body + more)[..head.length.value] == body[..head.length.value];
    }
  }

  // Cutting the stream differently.

  function Whole(pieces: seq<Bytes>): Bytes { if pieces == [] then [] else pieces[0] + Whole(pieces[1..]) }

  function Answer(v: Verdict): Option<Result<Bytes, Error>> {
    match v
    case Err(e) => Some(Err(e))
    case Ok(None) => None
    case Ok(Some(body)) => Some(Ok(body))
  }

  function Final(v: Verdict): Result<Bytes, Error> {
    match Answer(v)
    case None => Err(MalformedResponse)
    case Some(r) => r
  }

  // Encoding.

  datatype Piece = Piece(line: Bytes, data: Bytes)

  /** A size line with any extension, but no line break, that announces what follows. */
  predicate Announces(utf8: Bytes -> bool, line: Bytes, size: nat) {
    Find(line, CRLF).None? && SizeOf(utf8, line) == Some(size)
  }

  predicate WellFormed(utf8: Bytes -> bool, chunks: seq<Piece>) {
    forall i | 0 <= i < |chunks| :: GoodPiece(utf8, chunks[i])
  }

  predicate GoodPiece(utf8: Bytes -> bool, p: Piece) {
    p.data != [] && |p.data| + 2 <= USIZE_MAX && Announces(utf8, p.line, |p.data|)
  }

  function Wire(p: Piece): Bytes { p.line + CRLF + p.data + CRLF }

  function Encode(chunks: seq<Piece>, last: Bytes): Bytes {
    if chunks == [] then last + CRLF else Wire(chunks[0]) + Encode(chunks[1..], last)
  }

  function Joined(chunks: seq<Piece>): Bytes {
    if chunks == [] then [] else chunks[0].data + Joined(chunks[1..])
  }

  /** A line break is found at the end of the line and not before, or not yet at all. */
  lemma LineEnds(line: Bytes, rest: Bytes, cut: nat)
    requires Find(line, CRLF).None? && cut <= |line + CRLF + rest|
    ensures Find((line + CRLF + rest)[..cut], CRLF) == if cut < |line| + 2 then None else Some(|line|)
  {
    var all := line + CRLF + rest;
    var s := all[..cut];
    forall i: nat | i < |line| ensures !At(s, CRLF, i) {
      assert !At(line, CRLF, i);
      if i + 2 <= cut {
        assert s[i..i + 2] == all[i..i + 2];
        assert all[i] == line[i] && all[i + 1] == if i + 1 < |line| then line[i + 1] else CR;
        if i + 1 < |line| { assert line[i..i + 2] == all[i..i + 2]; } else { assert all[i..i + 2][1] == CR; }
      }
    }
    if cut >= |line| + 2 {
      assert s[|line|..|line| + 2] == CRLF;
      assert At(s, CRLF, |line|);
    }
  }

  lemma NextEncoded(utf8: Bytes -> bool, p: Piece, tail: Bytes)
    requires GoodPiece(utf8, p)
    ensures NextChunk(utf8, Wire(p) + tail) == Chunk(p.data, tail)
  {
    var rest := p.data + CRLF + tail;
    var all := p.line + CRLF + rest;
    assert Wire(p) + tail == all && all[..|all|] == all;
    LineEnds(p.line, rest, |all|);
    assert all[..|p.line|] == p.line && all[|p.line| + 2..] == rest;
    assert rest[|p.data|..|p.data| + 2] == CRLF && rest[..|p.data|] == p.data && rest[|p.data| + 2..] == tail;
  }

  /** Decoding an encoded list, whatever follows it, gives the joined chunks. */
  lemma {:induction false} DecodeEncoded(utf8: Bytes -> bool, chunks: seq<Piece>, last: Bytes, tail: Bytes, decoded: Bytes)
    requires WellFormed(utf8, chunks) && Announces(utf8, last, 0)
    ensures DecodeChunked(utf8, Encode(chunks, last) + tail, decoded) == Ok(Some(decoded + Joined(chunks)))
    decreases |chunks|
  {
    if chunks == [] {
      var all := last + CRLF + tail;
      assert all[..|all|] == all;
      LineEnds(last, tail, |all|);
      assert all[..|last|] == last;
      assert decoded + [] == decoded;
    } else {
      var more := Encode(chunks[1..], last) + tail;
      assert Encode(chunks, last) + tail == Wire(chunks[0]) + more;
      NextEncoded(utf8, chunks[0], more);
      DecodeEncoded(utf8, chunks[1..], last, tail, decoded + chunks[0].data);
      assert decoded + chunks[0].data + Joined(chunks[1..]) == decoded + Joined(chunks);
    }
  }

  lemma NextOfPrefix(utf8: Bytes -> bool, p: Piece, cut: nat)
    requires GoodPiece(utf8, p) && cut < |Wire(p)|
    ensures NextChunk(utf8, Wire(p)[..cut]) == NeedMore
  {
    var rest := p.data + CRLF;
    assert Wire(p) == p.line + CRLF + rest;
    LineEnds(p.line, rest, cut);
    var s := Wire(p)[..cut];
    if cut >= |p.line| + 2 { assert s[..|p.line|] == p.line; }
  }

  /** Every proper front part of an encoded list is incomplete, never an error. */
  lemma {:induction false} PrefixIncomplete(utf8: Bytes -> bool, chunks: seq<Piece>, last: Bytes, cut: nat, decoded: Bytes)
    requires WellFormed(utf8, chunks) && Announces(utf8, last, 0) && cut < |Encode(chunks, last)|
    ensures DecodeChunked(utf8, Encode(chunks, last)[..cut], decoded) == Ok(None)
    decreases |chunks|
  {
    var all := Encode(chunks, last);
    if chunks == [] {
      assert all == last + CRLF + [];
      LineEnds(last, [], cut);
    } else {
      var first, tail := Wire(chunks[0]), Encode(chunks[1..], last);
      CutTwo(first, tail, cut);
      if cut < |first| {
        NextOfPrefix(utf8, chunks[0], cut);
      } else {
        NextEncoded(utf8, chunks[0], tail[..cut - |first|]);
        PrefixIncomplete(utf8, chunks[1..], last, cut - |first|, decoded + chunks[0].data);
      }
    }
  }

  lemma CutTwo(a: Bytes, b: Bytes, cut: nat)
    requires cut <= |a + b|
    ensures (a + b)[..cut] == if cut < |a| then a[..cut] else a + b[..cut - |a|]
  {
  }

  // Sizes near the machine's maximum.

  /** After good chunks comes one whose size wraps around, and as many bytes as the wrapped size. */
  predicate Overflowing(utf8: Bytes -> bool, body: Bytes, chunks: seq<Piece>, line: Bytes, rest: Bytes) {
    && body == Encode(chunks, line) + rest && WellFormed(utf8, chunks)
    && Find(line, CRLF).None? && SizeOf(utf8, line).Some?
    && SizeOf(utf8, line).value + 2 > USIZE_MAX && |rest| >= WithBreak(SizeOf(utf8, line).value)
  }

  lemma {:induction false} OverflowAborts(
    utf8: Bytes -> bool, body: Bytes, chunks: seq<Piece>, line: Bytes, rest: Bytes, decoded: Bytes)
    requires Overflowing(utf8, body, chunks, line, rest)
    ensures DecodeChunked(utf8, body, decoded) == Err(Aborted)
    decreases |chunks|
  {
    if chunks == [] {
      assert body == line + CRLF + rest && body[..|body|] == body;
      LineEnds(line, rest, |body|);
      assert body[..|line|] == line && body[|line| + 2..] == rest;
    } else {
      var more := Encode(chunks[1..], line) + rest;
      assert body == Wire(chunks[0]) + more;
      NextEncoded(utf8, chunks[0], more);
      OverflowAborts(utf8, more, chunks[1..], line, rest, decoded + chunks[0].data);
    }
  }

  lemma LineBefore(body: Bytes)
    requires Find(body, CRLF).Some?
    ensures var i := Find(body, CRLF).value;
            Find(body[..i], CRLF).None? && body == body[..i] + CRLF + body[i + 2..]
  {
    var i := Find(body, CRLF).value;
    forall j: nat ensures !At(body[..i], CRLF, j) {
      if j + 2 <= i { assert !At(body, CRLF, j) && body[..i][j..j + 2] == body[j..j + 2]; }
    }
    assert body[i..i + 2] == CRLF;
  }

  lemma DataAndBreak(rest: Bytes, size: nat)
    requires size + 2 <= |rest| && rest[size..size + 2] == CRLF
    ensures rest == rest[..size] + CRLF + rest[size + 2..]
  {
  }

  lemma WireAssembles(p: Piece, rest: Bytes, body: Bytes)
    requires body == p.line + CRLF + (p.data + CRLF + rest)
    ensures body == Wire(p) + rest
  {
  }

  /** A chunk that was read is a good piece of the coding. */
  lemma ReadChunk(utf8: Bytes -> bool, body: Bytes) returns (p: Piece)
    requires NextChunk(utf8, body).Chunk?
    ensures GoodPiece(utf8, p) && NextChunk(utf8, body).data == p.data && body == Wire(p) + NextChunk(utf8, body).rest
  {
    LineBefore(body);
    var i := Find(body, CRLF).value;
    var size, rest := SizeOf(utf8, body[..i]).value, body[i + 2..];
    p := Piece(body[..i], rest[..size]);
    DataAndBreak(rest, size);
    WireAssembles(p, rest[size + 2..], body);
  }

  lemma OverflowsLater(utf8: Bytes -> bool, p: Piece, body: Bytes, chunks: seq<Piece>, line: Bytes, rest: Bytes)
    requires GoodPiece(utf8, p) && Overflowing(utf8, body, chunks, line, rest)
    ensures Overflowing(utf8, Wire(p) + body, [p] + chunks, line, rest)
  {
    assert ([p] + chunks)[1..] == chunks;
    assert Wire(p) + (Encode(chunks, line) + rest) == Wire(p) + Encode(chunks, line) + rest;
  }

  lemma OverflowsNow(utf8: Bytes -> bool, body: Bytes)
    requires NextChunk(utf8, body) == Aborts
    ensures var i := Find(body, CRLF).value; Overflowing(utf8, body, [], body[..i], body[i + 2..])
  {
    LineBefore(body);
  }

  lemma {:induction false} AbortOverflows(utf8: Bytes -> bool, body: Bytes, decoded: Bytes)
    returns (chunks: seq<Piece>, line: Bytes, rest: Bytes)
    requires DecodeChunked(utf8, body, decoded) == Err(Aborted)
    ensures Overflowing(utf8, body, chunks, line, rest)
    decreases |body|
  {
    var step := NextChunk(utf8, body);
    if step.Chunk? {
      var p := ReadChunk(utf8, body);
      chunks, line, rest := AbortOverflows(utf8, step.rest, decoded + step.data);
      OverflowsLater(utf8, p, step.rest, chunks, line, rest);
      chunks := [p] + chunks;
    } else {
      var i := Find(body, CRLF).value;
      OverflowsNow(utf8, body);
      chunks, line, rest := [], body[..i], body[i + 2..];
    }
  }

  /** The decoder aborts if and only if it meets a size within two of the machine's maximum. */
  lemma AbortsIff(utf8: Bytes -> bool, body: Bytes)
    ensures DecodeChunked(utf8, body, []) == Err(Aborted) <==>
            exists chunks, line, rest :: Overflowing(utf8, body, chunks, line, rest)
  {
    if DecodeChunked(utf8, body, []) == Err(Aborted) {
      var chunks, line, rest := AbortOverflows(utf8, body, []);
    }
    forall chunks, line, rest | Overflowing(utf8, body, chunks, line, rest)
      ensures DecodeChunked(utf8, body, []) == Err(Aborted)
    {
      OverflowAborts(utf8, body, chunks, line, rest, []);
    }
  }
}
