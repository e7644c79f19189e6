/**
What a contact link promises: every key comes back from its own link however the
link is dressed, no two links name one payload, one wrong letter is never read,
and a profile is accepted exactly when it holds one key.
*/
module ContactLaws {
  import opened Common
  import opened BitMath
  import opened Contact
  import Bech32
  import Regroup

  // Hexadecimal.

  lemma DigitRoundTrip(c: char)
    requires HexDigit(c)
    ensures HexLetter(HexValue(c)) == Lower(c)
  {
  }

  lemma PairRoundTrip(c: char, d: char)
    requires HexDigit(c) && HexDigit(d)
    ensures var b := HexValue(c) * 16 + HexValue(d);
            HexLetter(b / 16 % 16) == Lower(c) && HexLetter(b % 16) == Lower(d)
  {
    DigitRoundTrip(c);
    DigitRoundTrip(d);
    var high, low := HexValue(c), HexValue(d);
    assert (high * 16 + low) / 16 == high && (high * 16 + low) % 16 == low;
  }

  lemma {:induction false} HexUnhex(s: string)
    requires |s| % 2 == 0 && forall i | 0 <= i < |s| :: HexDigit(s[i])
    ensures Hex(Unhex(s)) == ToLower(s)
    decreases |s|
  {
    if s != "" {
      HexUnhex(s[2..]);
      assert Unhex(s)[1..] == Unhex(s[2..]);
      PairRoundTrip(s[0], s[1]);
      assert ToLower(s) == [Lower(s[0]), Lower(s[1])] + ToLower(s[2..]);
    }
  }

  predicate LowerHex(s: string) { forall i | 0 <= i < |s| :: HexDigit(s[i]) && Lower(s[i]) == s[i] }

  lemma LetterIsLower(v: nat)
    requires v < 16
    ensures HexDigit(HexLetter(v)) && Lower(HexLetter(v)) == HexLetter(v) && HexValue(HexLetter(v)) == v
  {
  }

  lemma {:induction false} UnhexHex(bytes: seq<nat>)
    requires forall i | 0 <= i < |bytes| :: bytes[i] < 256
    ensures LowerHex(Hex(bytes)) && Unhex(Hex(bytes)) == bytes
    decreases |bytes|
  {
    if bytes != [] {
      UnhexHex(bytes[1..]);
      var s := Hex(bytes);
      assert s[2..] == Hex(bytes[1..]) && s[0] == HexLetter(bytes[0] / 16 % 16) && s[1] == HexLetter(bytes[0] % 16);
      BytePair(bytes[0]);
      forall i | 0 <= i < |s| ensures HexDigit(s[i]) && Lower(s[i]) == s[i] {
        if i >= 2 { assert s[i] == s[2..][i - 2]; }
      }
    }
  }

  lemma BytePair(b: nat)
    requires b < 256
    ensures var c, d := HexLetter(b / 16 % 16), HexLetter(b % 16);
            && HexDigit(c) && Lower(c) == c && HexDigit(d) && Lower(d) == d && HexValue(c) * 16 + HexValue(d) == b
  {
    LetterIsLower(b / 16);
    LetterIsLower(b % 16);
  }

  // One link, one payload.

  lemma LettersAreRead(words: seq<nat>)
    requires Words5(words)
    ensures AllLetters(Letters(words)) && WordsOf(Letters(words)) == words
  {
    forall i | 0 <= i < |words| ensures IndexOf(Letters(words)[i]) == words[i] { AlphabetIndex(words[i]); }
  }

  lemma WordsAreWritten(s: string)
    requires AllLetters(s)
    ensures Words5(WordsOf(s)) && Letters(WordsOf(s)) == s
  {
    forall i | 0 <= i < |s| ensures ALPHABET[IndexOf(s[i])] == s[i] { IndexLetter(s[i]); }
  }

  /** Sealed letters read back as the words they were written from. */
  lemma SealedLetters(prefix: string, words: seq<nat>)
    requires Words5(words)
    ensures var link := Seal(prefix, words);
            && |prefix| < |link| && link[..|prefix|] == prefix && link[|prefix|] == '1'
            && AllLetters(link[|prefix| + 1..]) && |link| == |prefix| + 7 + |words|
            && WordsOf(link[|prefix| + 1..])[..|words|] == words
            && Bech32.Polymod(Expand(prefix) + WordsOf(link[|prefix| + 1..])) == Bech32.ONE
  {
    var front := Expand(prefix) + words;
    Bech32.ChecksumVerifies(front);
    var check := Bech32.CheckWords(front);
    assert forall i | 0 <= i < |check| :: check[i] in check;
    LettersAreRead(words + check);
    assert Expand(prefix) + (words + check) == front + check;
    assert Seal(prefix, words)[|prefix| + 1..] == Letters(words + check);
  }

  lemma RegroupedBytes(bytes: seq<nat>) returns (words: seq<nat>)
    requires Regroup.Fits(bytes, 8)
    ensures Regroup.Convert(bytes, 8, 5, true) == Ok(words) && Words5(words)
    ensures Regroup.Convert(words, 5, 8, false) == Ok(bytes)
    ensures words == [] <==> bytes == []
  {
    Regroup.RoundTrip(bytes, 8, 5);
    words := Regroup.Convert(bytes, 8, 5, true).value;
    assert Words5(words) by { assert Pow2(5) == 32; }
    NoBytesNoWords();
    if words == [] {
      assert Regroup.Convert([], 5, 8, false) == Ok(bytes);
    }
  }

  lemma NoBytesNoWords()
    ensures Regroup.Convert([], 5, 8, false) == Ok([])
    ensures Regroup.Convert([], 8, 5, true) == Ok([])
  {
  }

  /** Every payload with at least one byte comes back from its sealed letters. */
  lemma UnsealEncode(prefix: string, bytes: seq<nat>)
    requires Regroup.Fits(bytes, 8)
    ensures Encode(prefix, bytes).Ok?
    ensures var link := Encode(prefix, bytes).value;
            && |prefix| < |link| && link[..|prefix|] == prefix && link[|prefix|] == '1'
            && AllLetters(link[|prefix| + 1..])
            && Unseal(prefix, link[|prefix| + 1..]) == if bytes == [] then Err(ChecksumFailed) else Ok(bytes)
  {
    var words := RegroupedBytes(bytes);
    SealedLetters(prefix, words);
    var letters := Seal(prefix, words)[|prefix| + 1..];
    assert WordsOf(letters)[..|letters| - 6] == words;
  }

  /** What unseals is exactly what sealing that payload writes. */
  lemma UnsealedIsCanonical(prefix: string, letters: string)
    requires Unseal(prefix, letters).Ok?
    ensures Regroup.Fits(Unseal(prefix, letters).value, 8)
    ensures Encode(prefix, Unseal(prefix, letters).value) == Ok(prefix + "1" + letters)
  {
    var words := WordsOf(letters);
    WordsAreWritten(letters);
    var n := |words| - 6;
    var data, check := words[..n], words[n..];
    assert words == data + check;
    assert Expand(prefix) + words == Expand(prefix) + data + check;
    assert forall w <- check :: w < 32;
    Bech32.ChecksumUnique(Expand(prefix) + data, check);
    Regroup.DecodedIsCanonical(data, 8, 5);
  }

  // Whole links.

  predicate KnownPrefix(prefix: string) { prefix == "npub" || prefix == "nprofile" }

  lemma {:induction false} LastSplit(a: string, b: string)
    requires forall i | 0 <= i < |b| :: b[i] != '1'
    ensures LastIndexOf(a + "1" + b, '1') == |a|
    decreases |b|
  {
    var s := a + "1" + b;
    if b == "" {
      assert s[|s| - 1] == '1';
    } else {
      LastSplit(a, b[..|b| - 1]);
      assert s[..|s| - 1] == a + "1" + b[..|b| - 1];
    }
  }

  lemma LetterShape(c: char)
    requires IndexOf(c) >= 0
    ensures c != '1' && !IsSpace(c) && !IsSpace(Upper(c)) && Lower(c) == c && Lower(Upper(c)) == c
  {
  }

  lemma DecodeSplits(prefix: string, letters: string)
    requires AllLetters(letters)
    ensures Decode(prefix + "1" + letters) == DecodeParts(prefix, letters)
  {
    forall i | 0 <= i < |letters| ensures letters[i] != '1' { LetterShape(letters[i]); }
    LastSplit(prefix, letters);
    var value := prefix + "1" + letters;
    assert value[..|prefix|] == prefix && value[|prefix| + 1..] == letters;
  }

  /** A link decodes to what its prefix reads in its payload. */
  lemma DecodeEncode(prefix: string, bytes: seq<nat>)
    requires KnownPrefix(prefix) && Regroup.Fits(bytes, 8) && bytes != []
    ensures Encode(prefix, bytes).Ok? && Decode(Encode(prefix, bytes).value) == Contents(prefix, bytes)
  {
    UnsealEncode(prefix, bytes);
    var link := Encode(prefix, bytes).value;
    assert link == prefix + "1" + link[|prefix| + 1..];
    DecodeSplits(prefix, link[|prefix| + 1..]);
  }

  /** And nothing else does: an accepted link is the encoding of its payload, letter for letter. */
  lemma DecodedIsEncoded(value: string) returns (prefix: string, bytes: seq<nat>)
    requires Decode(value).Ok?
    ensures KnownPrefix(prefix) && Regroup.Fits(bytes, 8)
    ensures Encode(prefix, bytes) == Ok(value) && Contents(prefix, bytes) == Decode(value)
  {
    var split := LastIndexOf(value, '1');
    if split < 0 { NoSplit(value); }
    prefix := value[..split];
    LastIndexFound(value);
    assert value == prefix + "1" + value[split + 1..];
    bytes := PartsAreEncoded(prefix, value[split + 1..]);
  }

  lemma PartsAreEncoded(prefix: string, letters: string) returns (bytes: seq<nat>)
    requires DecodeParts(prefix, letters).Ok?
    ensures KnownPrefix(prefix) && Regroup.Fits(bytes, 8)
    ensures Encode(prefix, bytes) == Ok(prefix + "1" + letters) && Contents(prefix, bytes) == DecodeParts(prefix, letters)
  {
    bytes := Unseal(prefix, letters).value;
    UnsealedIsCanonical(prefix, letters);
  }

  lemma {:induction false} LastIndexFound(s: string)
    ensures var r := LastIndexOf(s, '1');
            && (r >= 0 ==> s[r] == '1')
            && (forall i | r < i < |s| :: s[i] != '1')
  {
    if s != "" && s[|s| - 1] != '1' {
      LastIndexFound(s[..|s| - 1]);
    }
  }

  /** Without a separator the whole string would be letters, and `o` and `b` are none. */
  lemma NoSplit(value: string)
    requires LastIndexOf(value, '1') < 0
    ensures Decode(value).Err?
  {
    var prefix := if value == "" then "" else value[..|value| - 1];
    NoLettersInPrefix(prefix, value);
  }

  lemma NoLettersInPrefix(prefix: string, letters: string)
    requires prefix <= letters
    ensures DecodeParts(prefix, letters).Err?
  {
    if KnownPrefix(prefix) { PrefixNoLetters(prefix, letters); }
  }

  lemma PrefixNoLetters(prefix: string, letters: string)
    requires KnownPrefix(prefix) && prefix <= letters
    ensures !AllLetters(letters)
  {
    assert letters[3] == prefix[3];
    assert prefix[3] == 'b' || prefix[3] == 'o';
  }

  lemma NpubContents(prefix: string, bytes: seq<nat>, parsed: Parsed)
    requires KnownPrefix(prefix) && Contents(prefix, bytes) == Ok(parsed) && parsed.format == Npub
    ensures prefix == "npub" && |bytes| == 32 && parsed.key == Hex(bytes)
  {
  }

  /** One key, one `npub`. */
  lemma NpubCanonical(value: string, parsed: Parsed)
    requires Decode(value) == Ok(parsed) && parsed.format == Npub
    ensures Hex64(parsed.key) && LowerHex(parsed.key) && value == NpubOf(parsed.key)
  {
    var prefix, bytes := DecodedIsEncoded(value);
    NpubContents(prefix, bytes, parsed);
    NpubOfHex(bytes);
  }

  lemma NpubOfHex(bytes: seq<nat>)
    requires Regroup.Fits(bytes, 8) && |bytes| == 32
    ensures Hex64(Hex(bytes)) && LowerHex(Hex(bytes)) && Ok(NpubOf(Hex(bytes))) == Encode("npub", bytes)
  {
    assert Pow2(8) == 256;
    UnhexHex(bytes);
    UnsealEncode("npub", bytes);
  }

  lemma WordsOfTypo(letters: string, q: nat, c: char)
    requires q < |letters| && c != letters[q] && AllLetters(letters) && AllLetters(letters[q := c])
    ensures IndexOf(c) >= 0 && WordsOf(letters[q := c]) == WordsOf(letters)[q := IndexOf(c)]
    ensures WordsOf(letters)[q] != IndexOf(c)
  {
    assert letters[q := c][q] == c;
    IndexLetter(letters[q]);
    IndexLetter(c);
  }

  lemma UnsealDetects(prefix: string, letters: string, q: nat, c: char)
    requires Unseal(prefix, letters).Ok? && q < |letters| && c != letters[q]
    ensures Unseal(prefix, letters[q := c]) == Err(ChecksumFailed)
  {
    var bad := letters[q := c];
    if AllLetters(bad) {
      WordsOfTypo(letters, q, c);
      var front, w := Expand(prefix), IndexOf(c);
      assert front + WordsOf(letters)[q := w] == (front + WordsOf(letters))[|front| + q := w];
      Bech32.SingleErrorDetected(front + WordsOf(letters), |front| + q, w);
    }
  }

  lemma NoSeparatorInPrefix(prefix: string, i: nat, letters: string)
    requires i < |prefix| && prefix[i] == '1'
    ensures DecodeParts(prefix, letters) == Err(WrongPrefix)
  {
  }

  lemma SplitOfTypo(value: string, p: nat, c: char)
    requires 0 <= LastIndexOf(value, '1') < p < |value|
    ensures c == '1' ==> LastIndexOf(value[p := c], '1') >= p
    ensures c != '1' ==> LastIndexOf(value[p := c], '1') == LastIndexOf(value, '1')
    ensures var split := LastIndexOf(value, '1');
            && value[p := c][split] == '1' && value[p := c][..split] == value[..split]
            && value[p := c][split + 1..] == value[split + 1..][p - split - 1 := c]
  {
    var bad, split := value[p := c], LastIndexOf(value, '1');
    LastIndexFound(value);
    LastIndexFound(bad);
    assert bad[split] == '1' && bad[p] == c;
  }

  lemma TypoInLetters(prefix: string, letters: string, q: nat, c: char)
    requires DecodeParts(prefix, letters).Ok? && q < |letters| && c != letters[q]
    ensures DecodeParts(prefix, letters[q := c]).Err?
  {
    UnsealDetects(prefix, letters, q, c);
  }

  /** One wrong character after the separator is never accepted. */
  lemma TypoUndecodable(value: string, p: nat, c: char)
    requires Decode(value).Ok? && LastIndexOf(value, '1') < p < |value| && c != value[p]
    ensures Decode(value[p := c]).Err?
  {
    var bad, split := value[p := c], LastIndexOf(value, '1');
    if split < 0 {
      NoSplit(value);
    } else {
      SplitOfTypo(value, p, c);
      var at := LastIndexOf(bad, '1');
      if c == '1' {
        NoSeparatorInPrefix(bad[..at], split, bad[at + 1..]);
      } else {
        TypoInLetters(value[..split], value[split + 1..], p - split - 1, c);
      }
    }
  }

  // Dressed links: white space around, the URI scheme in any case, all upper case.

  predicate AllSpace(s: string) { forall i | 0 <= i < |s| :: IsSpace(s[i]) }

  lemma {:induction false} TrimDressed(before: string, core: string, after: string)
    requires AllSpace(before) && AllSpace(after)
    requires core != "" && !IsSpace(core[0]) && !IsSpace(core[|core| - 1])
    ensures Trim(before + core + after) == core
    decreases |before| + |after|
  {
    var s := before + core + after;
    if before != "" {
      assert s[1..] == before[1..] + core + after && s[0] == before[0];
      TrimDressed(before[1..], core, after);
    } else if after != "" {
      assert s[0] == core[0] && s[|s| - 1] == after[|after| - 1];
      assert s[..|s| - 1] == before + core + after[..|after| - 1];
      TrimDressed(before, core, after[..|after| - 1]);
    } else {
      assert s == core;
    }
  }

  predicate Scheme(s: string) { s == "" || (|s| == 6 && StartsWith(s, "nostr:")) }

  /** How both kinds of link start; a key, a scheme or a private key starts otherwise. */
  predicate LinkLike(value: string) {
    2 <= |value| && Lower(value[0]) == 'n' && Lower(value[1]) == 'p' && !IsSpace(value[|value| - 1])
  }

  lemma LinkIsNothingElse(value: string)
    requires LinkLike(value)
    ensures !StartsWith(value, "nostr:") && !StartsWith(value, "nsec1") && !("dm:" <= value) && !Hex64(value)
  {
    assert "nostr:"[1] == 'o' && "nsec1"[1] == 's';
    assert !HexDigit(value[0]);
  }

  lemma SchemeIsStripped(scheme: string, value: string)
    requires Scheme(scheme) && LinkLike(value)
    ensures StartsWith(scheme + value, "nostr:") <==> scheme != ""
    ensures (if scheme != "" then (scheme + value)[6..] else scheme + value) == value
  {
    var all := scheme + value;
    if scheme == "" {
      assert all == value;
      LinkIsNothingElse(value);
    } else {
      forall i | 0 <= i < 6 ensures Lower(all[i]) == "nostr:"[i] { assert all[i] == scheme[i]; }
    }
  }

  lemma ParseDressed(before: string, scheme: string, value: string, after: string)
    requires AllSpace(before) && AllSpace(after) && Scheme(scheme) && LinkLike(value)
    requires value == ToLower(value) || value == ToUpper(value)
    requires |before + scheme + value + after| <= 5000
    ensures Parse(before + scheme + value + after) == Decode(ToLower(value))
  {
    var core := scheme + value;
    assert before + scheme + value + after == before + core + after;
    if scheme != "" { assert Lower(scheme[0]) == "nostr:"[0]; }
    TrimDressed(before, core, after);
    ParseSchemed(scheme, value);
  }

  lemma ParseSchemed(scheme: string, value: string)
    requires Scheme(scheme) && LinkLike(value)
    requires value == ToLower(value) || value == ToUpper(value)
    ensures ParseTrimmed(scheme + value) == Decode(ToLower(value))
  {
    SchemeIsStripped(scheme, value);
    ParseLink(value, scheme != "");
  }

  lemma ParseLink(value: string, uri: bool)
    requires LinkLike(value) && (value == ToLower(value) || value == ToUpper(value))
    ensures ParseValue(value, uri) == Decode(ToLower(value))
  {
    LinkIsNothingElse(value);
  }

  predicate Plain(c: char) {
    Lower(c) == c && Lower(Upper(c)) == c && Upper(Upper(c)) == Upper(c) && !IsSpace(c) && !IsSpace(Upper(c))
  }

  lemma PlainCase(s: string)
    requires forall i | 0 <= i < |s| :: Plain(s[i])
    ensures ToLower(s) == s && ToLower(ToUpper(s)) == s && ToUpper(ToUpper(s)) == ToUpper(s)
  {
  }

  lemma EncodedIsPlain(prefix: string, bytes: seq<nat>, i: nat)
    requires KnownPrefix(prefix) && Encode(prefix, bytes).Ok? && i < |Encode(prefix, bytes).value|
    ensures Plain(Encode(prefix, bytes).value[i])
  {
    UnsealEncode(prefix, bytes);
    var link := Encode(prefix, bytes).value;
    if i > |prefix| {
      var letters := link[|prefix| + 1..];
      assert link[i] == letters[i - |prefix| - 1];
      LetterShape(link[i]);
    } else if i < |prefix| {
      assert link[i] == link[..|prefix|][i] == prefix[i];
      PrefixShape(prefix, i);
    }
  }

  lemma PrefixShape(prefix: string, i: nat)
    requires KnownPrefix(prefix) && i < |prefix|
    ensures Plain(prefix[i])
  {
    assert 'a' <= prefix[i] <= 'z';
  }

  lemma EncodedIsLinkLike(prefix: string, bytes: seq<nat>)
    requires KnownPrefix(prefix) && Encode(prefix, bytes).Ok?
    ensures var link := Encode(prefix, bytes).value;
            && LinkLike(link) && LinkLike(ToUpper(link))
            && ToLower(link) == link && ToLower(ToUpper(link)) == link && ToUpper(ToUpper(link)) == ToUpper(link)
  {
    var link := Encode(prefix, bytes).value;
    UnsealEncode(prefix, bytes);
    forall i | 0 <= i < |link| ensures Plain(link[i]) { EncodedIsPlain(prefix, bytes, i); }
    PlainCase(link);
    assert link[0] == link[..|prefix|][0] == 'n' && link[1] == link[..|prefix|][1] == 'p';
  }

  /** However it is dressed, a link says what its payload says. */
  lemma LinkRoundTrip(prefix: string, bytes: seq<nat>, before: string, scheme: string, upper: bool, after: string)
    requires KnownPrefix(prefix) && Regroup.Fits(bytes, 8) && bytes != []
    requires AllSpace(before) && AllSpace(after) && Scheme(scheme)
    requires Encode(prefix, bytes).Ok? && |before| + |scheme| + |Encode(prefix, bytes).value| + |after| <= 5000
    ensures var link := Encode(prefix, bytes).value;
            Parse(before + scheme + (if upper then ToUpper(link) else link) + after) == Contents(prefix, bytes)
  {
    var link := Encode(prefix, bytes).value;
    EncodedIsLinkLike(prefix, bytes);
    ParseDressed(before, scheme, if upper then ToUpper(link) else link, after);
    DecodeEncode(prefix, bytes);
  }

  /** Every key comes back from its `npub`. */
  lemma KeyRoundTrip(key: string, before: string, scheme: string, upper: bool, after: string)
    requires Hex64(key) && AllSpace(before) && AllSpace(after) && Scheme(scheme)
    requires |before| + |scheme| + |NpubOf(key)| + |after| <= 5000
    ensures Parse(before + scheme + (if upper then ToUpper(NpubOf(key)) else NpubOf(key)) + after)
         == Ok(Parsed(ToLower(key), Npub, false))
  {
    var bytes := Unhex(key);
    assert Regroup.Fits(bytes, 8) by { assert Pow2(8) == 256; }
    UnsealEncode("npub", bytes);
    LinkRoundTrip("npub", bytes, before, scheme, upper, after);
    HexUnhex(key);
  }

  // Keys without a link, and what is no contact.

  /** The scheme in front of anything that is not itself one. */
  lemma SchemeInFront(before: string, scheme: string, value: string, after: string)
    requires AllSpace(before) && AllSpace(after) && Scheme(scheme)
    requires value != "" && !IsSpace(value[0]) && !IsSpace(value[|value| - 1]) && !StartsWith(value, "nostr:")
    requires |before + scheme + value + after| <= 5000
    ensures Parse(before + scheme + value + after) == ParseValue(value, scheme != "")
  {
    var core := scheme + value;
    assert before + scheme + value + after == before + core + after;
    if scheme == "" {
      assert core == value;
    } else {
      assert Lower(scheme[0]) == "nostr:"[0];
      forall i | 0 <= i < 6 ensures Lower(core[i]) == "nostr:"[i] { assert core[i] == scheme[i]; }
      assert core[6..] == value;
    }
    TrimDressed(before, core, after);
  }

  /** A private key is refused as one, in any case and with any dress. */
  lemma PrivateKeyRefused(before: string, scheme: string, value: string, after: string)
    requires AllSpace(before) && AllSpace(after) && Scheme(scheme)
    requires StartsWith(value, "nsec1") && !IsSpace(value[|value| - 1])
    requires |before + scheme + value + after| <= 5000
    ensures Parse(before + scheme + value + after) == Err(PrivateKey)
  {
    assert Lower(value[0]) == "nsec1"[0] && Lower(value[1]) == "nsec1"[1] && "nostr:"[1] == 'o';
    SchemeInFront(before, scheme, value, after);
  }

  lemma KeyIsNothingElse(key: string)
    requires Hex64(key)
    ensures !StartsWith(key, "nostr:") && !StartsWith(key, "nsec1") && !("dm:" <= key)
    ensures !IsSpace(key[0]) && !IsSpace(key[63])
  {
    assert HexDigit(key[0]) && HexDigit(key[1]) && HexDigit(key[63]);
    assert "nostr:"[0] == 'n' && "nsec1"[0] == 'n' && "dm:"[1] == 'm';
  }

  lemma DmKeyIsNothingElse(key: string)
    requires Hex64(key)
    ensures var value := "dm:" + key;
            && !StartsWith(value, "nostr:") && !StartsWith(value, "nsec1") && "dm:" <= value && value[3..] == key
            && !IsSpace(value[0]) && !IsSpace(value[|value| - 1])
  {
    var value := "dm:" + key;
    KeyIsNothingElse(key);
    assert value[0] == 'd' && "nostr:"[0] == 'n' && "nsec1"[0] == 'n' && value[|value| - 1] == key[63];
  }

  lemma BareValue(value: string, key: string)
    requires Hex64(key) && !StartsWith(value, "nsec1")
    requires if "dm:" <= value then value[3..] == key else value == key
    ensures ParseValue(value, false) == Ok(Parsed(ToLower(key), PublicKey, false))
  {
  }

  /** A hexadecimal key is itself, in lower case, alone or after `dm:`. */
  lemma BareKeyAccepted(before: string, dm: bool, key: string, after: string)
    requires AllSpace(before) && AllSpace(after) && Hex64(key) && |before| + |after| <= 4900
    ensures Parse(before + (if dm then "dm:" + key else key) + after) == Ok(Parsed(ToLower(key), PublicKey, false))
  {
    var value := if dm then "dm:" + key else key;
    if dm { DmKeyIsNothingElse(key); } else { KeyIsNothingElse(key); }
    assert before + "" + value + after == before + value + after;
    SchemeInFront(before, "", value, after);
    BareValue(value, key);
  }

  /** But not after the URI scheme, which is for links. */
  lemma SchemedKeyRefused(before: string, scheme: string, key: string, after: string)
    requires AllSpace(before) && AllSpace(after) && Scheme(scheme) && scheme != "" && Hex64(key) && |before| + |after| <= 4900
    ensures Parse(before + scheme + key + after) in {Err(MixedCase), Err(WrongPrefix)}
  {
    KeyIsNothingElse(key);
    SchemeInFront(before, scheme, key, after);
    LowerKeepsHex(key);
    SchemedValue(key);
  }

  lemma SchemedValue(key: string)
    requires Hex64(key) && Hex64(ToLower(key)) && !StartsWith(key, "nsec1")
    ensures ParseValue(key, true) in {Err(MixedCase), Err(WrongPrefix)}
  {
    assert forall i | 0 <= i < 64 :: HexDigit(ToLower(key)[i]);
    KeyIsNoLink(ToLower(key));
  }

  lemma KeyIsNoLink(value: string)
    requires |value| == 64 && forall i | 0 <= i < 64 :: value[i] != 'n'
    ensures Decode(value) == Err(WrongPrefix)
  {
    var split := LastIndexOf(value, '1');
    var prefix := if split >= 0 then value[..split] else value[..|value| - 1];
    if prefix != "" { assert prefix[0] == value[0]; }
  }

  /** A link with letters of both cases is refused as such. */
  lemma MixedCaseRefused(before: string, scheme: string, value: string, after: string)
    requires AllSpace(before) && AllSpace(after) && Scheme(scheme) && LinkLike(value)
    requires value != ToLower(value) && value != ToUpper(value) && |before + scheme + value + after| <= 5000
    ensures Parse(before + scheme + value + after) == Err(MixedCase)
  {
    LinkIsNothingElse(value);
    SchemeInFront(before, scheme, value, after);
  }

  // Profiles.

  datatype Entry = Entry(kind: nat, value: seq<nat>)

  /** A type-length-value list as bytes. */
  function Wire(entries: seq<Entry>): seq<nat> {
    if entries == [] then []
    else [entries[0].kind, |entries[0].value|] + entries[0].value + Wire(entries[1..])
  }

  function Keys(entries: seq<Entry>): seq<seq<nat>> {
    if entries == [] then []
    else (if entries[0].kind == 0 then [entries[0].value] else []) + Keys(entries[1..])
  }

  predicate Hinted(entries: seq<Entry>) { exists i | 0 <= i < |entries| :: entries[i].kind == 1 }

  /** A profile is accepted exactly when its list holds one key, of 32 bytes. */
  lemma ProfileOfEntries(entries: seq<Entry>)
    ensures ProfileKey(Wire(entries), None, false).Ok? <==> |Keys(entries)| == 1 && |Keys(entries)[0]| == 32
    ensures ProfileKey(Wire(entries), None, false).Ok? ==>
              ProfileKey(Wire(entries), None, false) == Ok((Keys(entries)[0], Hinted(entries)))
    ensures ProfileKey(Wire(entries), None, false).Err? ==>
              ProfileKey(Wire(entries), None, false) == Err(if Keys(entries) == [] then NoKey else NotExactlyOneKey)
  {
    ScanEntries(entries, None, false);
  }

  function KeySoFar(key: Option<seq<nat>>, entries: seq<Entry>): seq<seq<nat>> {
    (if key.Some? then [key.value] else []) + Keys(entries)
  }

  lemma {:induction false} ScanEntries(entries: seq<Entry>, key: Option<seq<nat>>, hints: bool)
    requires key.Some? ==> |key.value| == 32
    ensures var r, all := ProfileKey(Wire(entries), key, hints), KeySoFar(key, entries);
            && (r.Ok? <==> |all| == 1 && |all[0]| == 32)
            && (r.Ok? ==> r.value == (all[0], hints || Hinted(entries)))
            && (r.Err? ==> r.error == if all == [] then NoKey else NotExactlyOneKey)
    decreases |entries|
  {
    if entries != [] {
      var e, rest := entries[0], entries[1..];
      ScanOne(entries, key, hints);
      HintedStep(entries);
      if e.kind != 0 {
        ScanEntries(rest, key, hints || e.kind == 1);
        assert KeySoFar(key, entries) == KeySoFar(key, rest);
      } else if key.None? && |e.value| == 32 {
        ScanEntries(rest, Some(e.value), hints);
        assert KeySoFar(key, entries) == KeySoFar(Some(e.value), rest);
      } else {
        assert Keys(entries)[0] == e.value;
      }
    }
  }

  /** The scan takes one entry at a time. */
  lemma ScanOne(entries: seq<Entry>, key: Option<seq<nat>>, hints: bool)
    requires entries != []
    ensures var e := entries[0];
            ProfileKey(Wire(entries), key, hints) ==
            if e.kind == 0 && (key.Some? || |e.value| != 32) then Err(NotExactlyOneKey)
            else ProfileKey(Wire(entries[1..]), if e.kind == 0 then Some(e.value) else key, hints || e.kind == 1)
  {
    var e, wire := entries[0], Wire(entries);
    assert wire[0] == e.kind && wire[1] == |e.value|;
    assert wire[2..2 + |e.value|] == e.value && wire[2 + |e.value|..] == Wire(entries[1..]);
  }

  /** Bytes that begin another entry and do not complete it. */
  predicate CutShort(tail: seq<nat>) { tail != [] && (|tail| < 2 || 2 + tail[1] > |tail|) }

  lemma FirstEntry(kind: nat, value: seq<nat>, rest: seq<nat>)
    ensures var wire := [kind, |value|] + value + rest;
            && wire[0] == kind && wire[1] == |value|
            && wire[2..2 + |value|] == value && wire[2 + |value|..] == rest
  {
  }

  lemma WireParts(entries: seq<Entry>, tail: seq<nat>)
    requires entries != []
    ensures Wire(entries) + tail == [entries[0].kind, |entries[0].value|] + entries[0].value + (Wire(entries[1..]) + tail)
  {
  }

  /** No second key, and the first of the right length. */
  predicate SoFarGood(key: Option<seq<nat>>, entries: seq<Entry>) {
    |KeySoFar(key, entries)| <= 1 && (Keys(entries) != [] ==> |Keys(entries)[0]| == 32)
  }

  lemma SoFarGoodNext(key: Option<seq<nat>>, entries: seq<Entry>)
    requires entries != [] && SoFarGood(key, entries)
    ensures var e := entries[0];
            && (e.kind == 0 ==> key.None? && |e.value| == 32)
            && SoFarGood(if e.kind == 0 then Some(e.value) else key, entries[1..])
  {
    var e := entries[0];
    if e.kind == 0 { assert Keys(entries)[0] == e.value; }
  }

  lemma {:induction false} ScanCutShort(entries: seq<Entry>, tail: seq<nat>, key: Option<seq<nat>>, hints: bool)
    requires CutShort(tail) && SoFarGood(key, entries)
    ensures ProfileKey(Wire(entries) + tail, key, hints) == Err(Truncated)
    decreases |entries|
  {
    if entries == [] {
      assert Wire(entries) + tail == tail;
    } else {
      var e := entries[0];
      WireParts(entries, tail);
      FirstEntry(e.kind, e.value, Wire(entries[1..]) + tail);
      SoFarGoodNext(key, entries);
      ScanCutShort(entries[1..], tail, if e.kind == 0 then Some(e.value) else key, hints || e.kind == 1);
    }
  }

  /** A profile that breaks off inside an entry is refused as truncated. */
  lemma TruncatedProfileRefused(entries: seq<Entry>, tail: seq<nat>)
    requires CutShort(tail) && SoFarGood(None, entries)
    ensures ProfileKey(Wire(entries) + tail, None, false) == Err(Truncated)
  {
    ScanCutShort(entries, tail, None, false);
  }

  lemma HintedStep(entries: seq<Entry>)
    requires entries != []
    ensures Hinted(entries) <==> entries[0].kind == 1 || Hinted(entries[1..])
  {
    var rest := entries[1..];
    if i :| 0 <= i < |entries| && entries[i].kind == 1 {
      assert i == 0 || rest[i - 1].kind == 1;
    }
    if i :| 0 <= i < |rest| && rest[i].kind == 1 {
      assert entries[i + 1].kind == 1;
    }
  }

  /** Bytes that are no list of entries are never accepted. */
  lemma {:induction false} AcceptedIsWire(bytes: seq<nat>, key: Option<seq<nat>>, hints: bool)
    returns (entries: seq<Entry>)
    requires ProfileKey(bytes, key, hints).Ok?
    ensures Wire(entries) == bytes
    decreases |bytes|
  {
    if bytes == [] {
      entries := [];
    } else {
      var n := 2 + bytes[1];
      var e := Entry(bytes[0], bytes[2..n]);
      var rest := AcceptedIsWire(bytes[n..], if bytes[0] == 0 then Some(e.value) else key, hints || bytes[0] == 1);
      entries := [e] + rest;
      assert entries[1..] == rest;
      assert bytes == [bytes[0], bytes[1]] + bytes[2..n] + bytes[n..];
    }
  }

  /** A profile link, however dressed, yields its one key and says whether hints were dropped. */
  lemma ProfileRoundTrip(entries: seq<Entry>, before: string, scheme: string, upper: bool, after: string)
    requires Regroup.Fits(Wire(entries), 8) && |Keys(entries)| == 1 && |Keys(entries)[0]| == 32
    requires AllSpace(before) && AllSpace(after) && Scheme(scheme)
    requires Encode("nprofile", Wire(entries)).Ok?
    requires |before| + |scheme| + |Encode("nprofile", Wire(entries)).value| + |after| <= 5000
    ensures var link := Encode("nprofile", Wire(entries)).value;
            Parse(before + scheme + (if upper then ToUpper(link) else link) + after)
            == Ok(Parsed(Hex(Keys(entries)[0]), Profile, Hinted(entries)))
  {
    ProfileOfEntries(entries);
    LinkRoundTrip("nprofile", Wire(entries), before, scheme, upper, after);
  }

  lemma DecodedKeyIsHex(value: string)
    requires Decode(value).Ok?
    ensures Hex64(Decode(value).value.key) && LowerHex(Decode(value).value.key)
  {
    var prefix, bytes := DecodedIsEncoded(value);
    if prefix == "npub" {
      NpubOfHex(bytes);
    } else {
      var entries := AcceptedIsWire(bytes, None, false);
      ProfileOfEntries(entries);
      KeysAreOnTheWire(entries);
      NpubOfHex(Keys(entries)[0]);
    }
  }

  /** Whatever is accepted, the key is 64 lower-case hexadecimal digits. */
  lemma ParsedKeyIsHex(input: string)
    requires Parse(input).Ok?
    ensures Hex64(Parse(input).value.key) && LowerHex(Parse(input).value.key)
  {
    var trimmed := Trim(input);
    var uri := StartsWith(trimmed, "nostr:");
    var value := if uri then trimmed[6..] else trimmed;
    var bare := if "dm:" <= value then value[3..] else value;
    if !StartsWith(value, "nsec1") && !uri && Hex64(bare) {
      LowerKeepsHex(bare);
    } else {
      DecodedKeyIsHex(ToLower(value));
    }
  }

  lemma LowerKeepsHex(s: string)
    requires Hex64(s)
    ensures Hex64(ToLower(s)) && LowerHex(ToLower(s))
  {
    forall i | 0 <= i < |s| ensures HexDigit(ToLower(s)[i]) && Lower(ToLower(s)[i]) == ToLower(s)[i] {
      assert HexDigit(s[i]);
    }
  }

  lemma {:induction false} KeysAreOnTheWire(entries: seq<Entry>)
    requires Regroup.Fits(Wire(entries), 8)
    ensures forall i | 0 <= i < |Keys(entries)| :: Regroup.Fits(Keys(entries)[i], 8)
  {
    if entries != [] {
      var e, wire := entries[0], Wire(entries);
      assert wire[2..2 + |e.value|] == e.value && wire[2 + |e.value|..] == Wire(entries[1..]);
      KeysAreOnTheWire(entries[1..]);
    }
  }
}
