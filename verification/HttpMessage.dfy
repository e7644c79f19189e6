/**
A writer of whole HTTP/1.1 answers, independent of the reader: a status line, header fields
with any letter case and padding, a blank line, and a body framed in one of the three ways of
section 6.3 of RFC 9112. What the reader makes of everything it writes.
*/
module HttpMessage {
  import opened Common
  import opened Http
  import opened HttpEncoder
  import HttpWitness

  const COLON: byte := 58
  const BLANKSPACE: byte := 32

  predicate Clean(s: Bytes) { forall i | 0 <= i < |s| :: s[i] != CR }

  // Lines.

  function Lined(lines: seq<Bytes>): Bytes
    requires lines != []
  {
    if |lines| == 1 then lines[0] else lines[0] + CRLF + Lined(lines[1..])
  }

  predicate CleanLines(lines: seq<Bytes>) {
    lines != [] && forall i | 0 <= i < |lines| :: lines[i] != [] && Clean(lines[i])
  }

  lemma CleanHasNoBreak(line: Bytes)
    requires Clean(line)
    ensures Find(line, CRLF).None?
  {
    forall j: nat ensures !At(line, CRLF, j) {
      if j + 2 <= |line| { assert line[j..j + 2][0] == line[j]; }
    }
  }

  /** The reader finds the lines that were written. */
  lemma {:induction false} SplitLined(lines: seq<Bytes>)
    requires CleanLines(lines)
    ensures Split(Lined(lines), CRLF) == lines
    decreases |lines|
  {
    var line := lines[0];
    CleanHasNoBreak(line);
    if |lines| > 1 {
      var rest := Lined(lines[1..]);
      var s := line + CRLF + rest;
      LineEnds(line, rest, |s|);
      assert s[..|s|] == s && s[..|line|] == line && s[|line| + 2..] == rest;
      SplitLined(lines[1..]);
    }
  }

  lemma LinedStarts(lines: seq<Bytes>)
    requires CleanLines(lines)
    ensures Lined(lines) != [] && Lined(lines)[0] != CR
  {
    assert lines[0][0] != CR;
  }

  /** And the blank line after them, and none before. */
  lemma {:induction false} BlankAfter(lines: seq<Bytes>, rest: Bytes)
    requires CleanLines(lines)
    ensures Find(Lined(lines) + BLANK + rest, BLANK) == Some(|Lined(lines)|)
    decreases |lines|
  {
    var text := Lined(lines);
    var s := text + BLANK + rest;
    assert s[|text|..|text| + 4] == BLANK;
    assert At(s, BLANK, |text|);
    if |lines| > 1 {
      BlankAfter(lines[1..], rest);
      LinedStarts(lines[1..]);
      NoneBefore(lines[0], Lined(lines[1..]), rest);
    } else {
      forall j: nat | j < |text| ensures !At(s, BLANK, j) { assert s[j] == text[j]; NotHere(s, j, 0); }
    }
  }

  lemma NotHere(s: Bytes, j: nat, k: nat)
    requires k < 4 && j + k < |s| && s[j + k] != BLANK[k]
    ensures !At(s, BLANK, j)
  {
    if j + 4 <= |s| { assert s[j..j + 4][k] == s[j + k]; }
  }

  lemma NoneBefore(line: Bytes, text: Bytes, rest: Bytes)
    requires Clean(line) && text != [] && text[0] != CR && Find(text + BLANK + rest, BLANK) == Some(|text|)
    ensures var s := line + CRLF + text + BLANK + rest;
            forall j: nat | j < |line| + 2 + |text| :: !At(s, BLANK, j)
  {
    var s, tail, n := line + CRLF + text + BLANK + rest, text + BLANK + rest, |line| + 2;
    assert s == line + CRLF + tail;
    forall j: nat | j < n + |text| ensures !At(s, BLANK, j) {
      if j < |line| { NotHere(s, j, 0); }
      else if j == |line| { assert s[j + 2] == text[0]; NotHere(s, j, 2); }
      else if j == |line| + 1 { assert s[j] == LF; NotHere(s, j, 0); }
      else {
        assert !At(tail, BLANK, j - n);
        if j + 4 <= |s| { assert tail[j - n..j - n + 4] == s[j..j + 4]; }
      }
    }
  }

  // Header fields.

  /** A field line, with the padding around its value. */
  datatype Field = Field(name: Bytes, left: Bytes, value: Bytes, right: Bytes)

  predicate AllSpace(s: Bytes) { forall i | 0 <= i < |s| :: Space(s[i]) }

  predicate Bare(s: Bytes) { s != [] ==> !Space(s[0]) && !Space(s[|s| - 1]) }

  function Line(f: Field): Bytes { f.name + [COLON] + f.left + f.value + f.right }

  predicate GoodField(f: Field) {
    && (forall i | 0 <= i < |f.name| :: f.name[i] != COLON)
    && AllSpace(f.left) && AllSpace(f.right) && Bare(f.value) && Clean(Line(f))
  }

  lemma {:induction false} TrimLeft(left: Bytes, s: Bytes)
    requires AllSpace(left)
    ensures Trim(left + s) == Trim(s)
    decreases |left|
  {
    if left == [] {
      assert left + s == s;
    } else {
      TrimLeft(left[1..], s);
      assert (left + s)[1..] == left[1..] + s && (left + s)[0] == left[0];
    }
  }

  lemma {:induction false} TrimRight(s: Bytes, right: Bytes)
    requires AllSpace(right) && Bare(s)
    ensures Trim(s + right) == s
    decreases |right|
  {
    if right == [] {
      assert s + right == s;
    } else if s == [] {
      TrimLeft(right, []);
      assert s + right == right + [];
    } else {
      var all := s + right;
      assert all[0] == s[0] && all[|all| - 1] == right[|right| - 1] && all[..|all| - 1] == s + right[..|right| - 1];
      TrimRight(s, right[..|right| - 1]);
    }
  }

  predicate Lengthy(f: Field) { Lower(f.name) == CONTENT_LENGTH }

  predicate Chunky(f: Field) { Lower(f.name) == TRANSFER_ENCODING && Find(Lower(f.value), CHUNKED).Some? }

  lemma LineParts(f: Field)
    requires GoodField(f)
    ensures Find(Line(f), [COLON]) == Some(|f.name|)
    ensures Line(f)[..|f.name|] == f.name && Trim(Line(f)[|f.name| + 1..]) == f.value
  {
    var line, n := Line(f), |f.name|;
    assert line[n..n + 1] == [COLON];
    assert At(line, [COLON], n);
    forall j: nat | j < n ensures !At(line, [COLON], j) { assert line[j..j + 1][0] == line[j] == f.name[j]; }
    assert line[n + 1..] == f.left + (f.value + f.right);
    TrimLeft(f.left, f.value + f.right);
    TrimRight(f.value, f.right);
  }

  // What the fields say, taken together.

  predicate LengthsParse(fields: seq<Field>) {
    forall i | 0 <= i < |fields| && Lengthy(fields[i]) :: Number(fields[i].value, 10).Some?
  }

  /** The last length stated. */
  function StatedLength(fields: seq<Field>): Option<nat> {
    if fields == [] then None
    else if Lengthy(fields[|fields| - 1]) then Number(fields[|fields| - 1].value, 10)
    else StatedLength(fields[..|fields| - 1])
  }

  predicate SaysChunked(fields: seq<Field>) { exists i | 0 <= i < |fields| :: Chunky(fields[i]) }

  predicate GoodFields(fields: seq<Field>) { forall i | 0 <= i < |fields| :: GoodField(fields[i]) }

  function FieldLines(fields: seq<Field>): (r: seq<Bytes>)
    ensures |r| == |fields| && forall i | 0 <= i < |fields| :: r[i] == Line(fields[i])
  {
    seq(|fields|, i requires 0 <= i < |fields| => Line(fields[i]))
  }

  lemma LastField(fields: seq<Field>)
    requires fields != []
    ensures var front, last := fields[..|fields| - 1], fields[|fields| - 1];
            && (LengthsParse(fields) <==> LengthsParse(front) && (Lengthy(last) ==> Number(last.value, 10).Some?))
            && (SaysChunked(fields) <==> SaysChunked(front) || Chunky(last))
            && FieldLines(fields)[..|fields| - 1] == FieldLines(front)
  {
    var front := fields[..|fields| - 1];
    assert forall i | 0 <= i < |front| :: front[i] == fields[i];
  }

  /** The header loop agrees: a bad length is refused, the last good one counts, and one mention of chunking is enough. */
  lemma {:induction false} FieldsRead(status: nat, fields: seq<Field>)
    requires GoodFields(fields)
    ensures ReadHeaders(Head(status, None, false), FieldLines(fields))
         == if LengthsParse(fields) then Some(Head(status, StatedLength(fields), SaysChunked(fields))) else None
    decreases |fields|
  {
    if fields != [] {
      LastField(fields);
      LineParts(fields[|fields| - 1]);
      FieldsRead(status, fields[..|fields| - 1]);
    }
  }

  // The status line.

  predicate Version(v: Bytes) { v == HTTP_1_1 || v == HTTP_1_0 }

  /** After the status code: nothing, or a space and a reason. */
  predicate Reason(s: Bytes) { Clean(s) && (s != [] ==> s[0] == BLANKSPACE) }

  function StatusLine(version: Bytes, zeros: nat, status: nat, reason: Bytes): Bytes {
    version + [BLANKSPACE] + HttpWitness.Numeral(zeros, status) + reason
  }

  lemma FirstWord(word: Bytes, rest: Bytes)
    requires (forall i | 0 <= i < |word| :: word[i] != BLANKSPACE) && (rest != [] ==> rest[0] == BLANKSPACE)
    ensures Split(word + rest, [BLANKSPACE])[0] == word
    ensures rest != [] ==> Split(word + rest, [BLANKSPACE]) == [word] + Split(rest[1..], [BLANKSPACE])
  {
    var s := word + rest;
    if rest == [] {
      forall j: nat ensures !At(s, [BLANKSPACE], j) { if j < |s| { assert s[j..j + 1][0] == s[j] == word[j]; } }
    } else {
      assert s[|word|..|word| + 1] == [BLANKSPACE];
      assert At(s, [BLANKSPACE], |word|);
      forall j: nat | j < |word| ensures !At(s, [BLANKSPACE], j) { assert s[j..j + 1][0] == s[j] == word[j]; }
      assert s[..|word|] == word && s[|word| + 1..] == rest[1..];
    }
  }

  lemma StatusNumber(zeros: nat, status: nat)
    ensures var digits := HttpWitness.Numeral(zeros, status);
            && (forall i | 0 <= i < |digits| :: digits[i] != BLANKSPACE && digits[i] != CR)
            && Number(digits, 10) == if status <= USIZE_MAX then Some(status) else None
  {
    var digits := HttpWitness.Numeral(zeros, status);
    HttpWitness.NumeralReads(zeros, status);
    HttpWitness.NumericTrims(digits);
  }

  lemma StatusWords(version: Bytes, digits: Bytes, reason: Bytes)
    requires Version(version) && Reason(reason) && forall i | 0 <= i < |digits| :: digits[i] != BLANKSPACE
    ensures var parts := Split(version + [BLANKSPACE] + digits + reason, [BLANKSPACE]);
            |parts| >= 2 && parts[0] == version && parts[1] == digits
  {
    var line, rest := version + [BLANKSPACE] + digits + reason, [BLANKSPACE] + digits + reason;
    assert line == version + rest && rest[1..] == digits + reason;
    FirstWord(version, rest);
    FirstWord(digits, reason);
  }

  lemma StatusReads(version: Bytes, zeros: nat, status: nat, reason: Bytes)
    requires Version(version) && Reason(reason)
    ensures StatusOf(StatusLine(version, zeros, status, reason)) == if status <= 65535 then Some(status) else None
  {
    StatusNumber(zeros, status);
    StatusWords(version, HttpWitness.Numeral(zeros, status), reason);
  }

  // The answer.

  datatype Message = Message(version: Bytes, zeros: nat, status: nat, reason: Bytes, fields: seq<Field>)

  predicate GoodMessage(m: Message) {
    Version(m.version) && Reason(m.reason) && m.status <= 65535 && GoodFields(m.fields)
  }

  function HeadLines(m: Message): (r: seq<Bytes>)
    ensures r != []
  {
    [StatusLine(m.version, m.zeros, m.status, m.reason)] + FieldLines(m.fields)
  }

  function Written(m: Message): Bytes { Lined(HeadLines(m)) }

  lemma HeadIsClean(m: Message)
    requires GoodMessage(m)
    ensures CleanLines(HeadLines(m))
  {
    StatusNumber(m.zeros, m.status);
    var line := StatusLine(m.version, m.zeros, m.status, m.reason);
    assert forall i | 0 <= i < |m.version| :: m.version[i] != CR;
    assert Clean(line);
    forall i | 0 <= i < |m.fields| ensures Line(m.fields[i]) != [] && Clean(Line(m.fields[i])) {
    }
  }

  /** The reader's head is what the message says. */
  lemma HeadReads(m: Message)
    requires GoodMessage(m)
    ensures ReadHead(Written(m))
         == if LengthsParse(m.fields) then Some(Head(m.status, StatedLength(m.fields), SaysChunked(m.fields))) else None
  {
    HeadIsClean(m);
    SplitLined(HeadLines(m));
    StatusReads(m.version, m.zeros, m.status, m.reason);
    assert HeadLines(m)[1..] == FieldLines(m.fields);
    FieldsRead(m.status, m.fields);
  }

  lemma ContentIsBody(env: Env, m: Message, body: Bytes, eof: bool)
    requires GoodMessage(m) && env.utf8(Written(m)) && LengthsParse(m.fields)
    ensures Content(env, Written(m) + BLANK + body, eof)
         == Judge(env, m.status, Body(env, Head(m.status, StatedLength(m.fields), SaysChunked(m.fields)), body, eof))
  {
    var text := Written(m);
    var s := text + BLANK + body;
    HeadIsClean(m);
    BlankAfter(HeadLines(m), body);
    HeadReads(m);
    assert s[..|text|] == text && s[|text| + 4..] == body;
  }

  /** What is said of a document that has arrived. */
  function Arrived(env: Env, status: nat, document: Bytes): Verdict {
    if status != 200 then Err(HttpStatus(status))
    else if |document| > env.maxDocument then Err(ResponseTooLarge)
    else Ok(Some(document))
  }

  /** A chunked answer, whatever length it also states, and data its chunks can carry. */
  ghost predicate Chunkable(env: Env, m: Message, data: seq<Bytes>, ext: Bytes) {
    && GoodMessage(m) && env.utf8(Written(m)) && LengthsParse(m.fields) && SaysChunked(m.fields)
    && AsciiIsUtf8(env.utf8) && Extension(ext)
    && (forall i | 0 <= i < |data| :: data[i] != [] && |data[i]| + 2 <= USIZE_MAX)
  }

  lemma ChunkedContent(env: Env, m: Message, body: Bytes, eof: bool)
    requires GoodMessage(m) && env.utf8(Written(m)) && LengthsParse(m.fields) && SaysChunked(m.fields)
    ensures Content(env, Written(m) + BLANK + body, eof) == Judge(env, m.status, DecodeChunked(env.utf8, body, []))
  {
    ContentIsBody(env, m, body, eof);
  }

  /** The whole of it is the data, whatever trails. */
  lemma ChunkedAnswerReads(env: Env, m: Message, data: seq<Bytes>, upper: bool, ext: Bytes, tail: Bytes, eof: bool)
    requires Chunkable(env, m, data, ext)
    ensures Content(env, Written(m) + BLANK + (Coded(data, upper, ext) + tail), eof) == Arrived(env, m.status, Whole(data))
  {
    var body := Coded(data, upper, ext) + tail;
    CodedDecodes(env.utf8, data, upper, ext, tail, 0);
    ChunkedContent(env, m, body, eof);
    JudgeArrived(env, m.status, Whole(data));
  }

  lemma JudgeArrived(env: Env, status: nat, document: Bytes)
    ensures Judge(env, status, Ok(Some(document))) == Arrived(env, status, document)
  {
  }

  /** And any front part of it is incomplete. */
  lemma ChunkedAnswerWaits(env: Env, m: Message, data: seq<Bytes>, upper: bool, ext: Bytes, cut: nat, eof: bool)
    requires Chunkable(env, m, data, ext) && cut < |Coded(data, upper, ext)|
    ensures Content(env, Written(m) + BLANK + Coded(data, upper, ext)[..cut], eof) == Ok(None)
  {
    CodedDecodes(env.utf8, data, upper, ext, [], cut);
    ChunkedContent(env, m, Coded(data, upper, ext)[..cut], eof);
  }

  /** An answer with a stated length: incomplete until that much is there, and nothing after it counts. */
  lemma MeasuredAnswerReads(env: Env, m: Message, body: Bytes, eof: bool)
    requires GoodMessage(m) && env.utf8(Written(m)) && LengthsParse(m.fields) && !SaysChunked(m.fields)
    requires StatedLength(m.fields).Some?
    ensures var n := StatedLength(m.fields).value;
            Content(env, Written(m) + BLANK + body, eof)
              == if |body| < n then Ok(None) else Arrived(env, m.status, body[..n])
  {
    ContentIsBody(env, m, body, eof);
  }

  /** An answer with neither lasts to the end of the stream. */
  lemma OpenAnswerReads(env: Env, m: Message, body: Bytes, eof: bool)
    requires GoodMessage(m) && env.utf8(Written(m)) && LengthsParse(m.fields) && !SaysChunked(m.fields)
    requires StatedLength(m.fields).None?
    ensures Content(env, Written(m) + BLANK + body, eof) == if eof then Arrived(env, m.status, body) else Ok(None)
  {
    ContentIsBody(env, m, body, eof);
  }

  /** A length that is no number is refused whatever follows. */
  lemma BadLengthRefused(env: Env, m: Message, body: Bytes, eof: bool)
    requires GoodMessage(m) && !LengthsParse(m.fields)
    ensures Content(env, Written(m) + BLANK + body, eof) == Err(MalformedResponse)
  {
    var text := Written(m);
    var s := text + BLANK + body;
    HeadIsClean(m);
    BlankAfter(HeadLines(m), body);
    HeadReads(m);
    assert s[..|text|] == text;
  }
}
