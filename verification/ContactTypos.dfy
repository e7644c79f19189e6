/**
Mistyped contact links as a user pastes them: one wrong character after the separator is
refused, whatever surrounds the link, in either case, and also when the character is white
space that trimming removes. The one exception is the Kelvin sign for a capital `K`.
*/
module ContactTypos {
  import opened Common
  import opened BitMath
  import opened Contact
  import opened ContactLaws
  import Bech32
  import Regroup

  // The end of a link.

  lemma LastLetterNeeded(prefix: string, letters: string)
    requires Unseal(prefix, letters).Ok?
    ensures Unseal(prefix, letters[..|letters| - 1]).Err?
  {
    var short := letters[..|letters| - 1];
    var words, w := WordsOf(letters), IndexOf(letters[|letters| - 1]);
    assert WordsOf(short) + [w] == words;
    var front := Expand(prefix) + WordsOf(short);
    assert front + [w] == Expand(prefix) + words;
    if Bech32.Polymod(front) == Bech32.ONE { Bech32.LastWordNeeded(front, w); }
  }

  /** A link without its last letter is no link. */
  lemma ShortenedUndecodable(value: string, short: string)
    requires value != "" && Decode(value).Ok? && short == value[..|value| - 1]
    ensures Decode(short).Err?
  {
    var split := LastIndexOf(value, '1');
    if split < 0 { NoSplit(value); }
    LastIndexFound(value);
    var letters := value[split + 1..];
    DecodableSplit(value);
    SplitOfShortened(value);
    assert short[..split] == value[..split] && short[split + 1..] == letters[..|letters| - 1];
    LastLetterNeeded(value[..split], letters);
  }

  lemma PartsShape(prefix: string, letters: string)
    requires DecodeParts(prefix, letters).Ok?
    ensures KnownPrefix(prefix) && |letters| >= 7 && AllLetters(letters)
  {
  }

  lemma KnownPrefixLength(prefix: string)
    requires KnownPrefix(prefix)
    ensures |prefix| >= 4
  {
  }

  lemma DecodableParts(value: string) returns (prefix: string, letters: string)
    requires Decode(value).Ok?
    ensures |prefix| == LastIndexOf(value, '1') < |value| && letters == value[|prefix| + 1..]
    ensures DecodeParts(prefix, letters).Ok?
  {
    var split := LastIndexOf(value, '1');
    if split < 0 { NoSplit(value); }
    prefix, letters := value[..split], value[split + 1..];
  }

  lemma PartsReach(prefix: string, letters: string)
    requires DecodeParts(prefix, letters).Ok?
    ensures |prefix| >= 4 && |letters| >= 7
  {
    PartsShape(prefix, letters);
    KnownPrefixLength(prefix);
  }

  lemma DecodableSplit(value: string)
    requires Decode(value).Ok?
    ensures 4 <= LastIndexOf(value, '1') && LastIndexOf(value, '1') + 8 <= |value|
  {
    var prefix, letters := DecodableParts(value);
    PartsReach(prefix, letters);
  }

  lemma LetterFrom(prefix: string, letters: string, value: string, i: nat)
    requires DecodeParts(prefix, letters).Ok? && |prefix| < i < |value| && letters == value[|prefix| + 1..]
    ensures IndexOf(value[i]) >= 0
  {
    PartsShape(prefix, letters);
    assert value[i] == letters[i - |prefix| - 1];
  }

  lemma LetterAfterSplit(value: string, i: nat)
    requires Decode(value).Ok? && LastIndexOf(value, '1') < i < |value|
    ensures IndexOf(value[i]) >= 0
  {
    var prefix, letters := DecodableParts(value);
    LetterFrom(prefix, letters, value, i);
  }

  lemma SplitOfShortened(value: string)
    requires 0 <= LastIndexOf(value, '1') < |value| - 1
    ensures LastIndexOf(value[..|value| - 1], '1') == LastIndexOf(value, '1')
  {
    LastIndexFound(value);
    LastIndexFound(value[..|value| - 1]);
    var split, short := LastIndexOf(value, '1'), value[..|value| - 1];
    assert short[split] == '1' && forall i | split < i < |short| :: short[i] == value[i];
  }

  // What is accepted, undone into its parts.

  lemma {:induction false} TrimSplits(s: string) returns (before: string, after: string)
    ensures s == before + Trim(s) + after && AllSpace(before) && AllSpace(after)
    decreases |s|
  {
    if s != "" && IsSpace(s[0]) {
      before, after := TrimSplits(s[1..]);
      before := [s[0]] + before;
      assert s == [s[0]] + s[1..];
    } else if s != "" && IsSpace(s[|s| - 1]) {
      before, after := TrimSplits(s[..|s| - 1]);
      after := after + [s[|s| - 1]];
      assert s == s[..|s| - 1] + [s[|s| - 1]];
    } else {
      before, after := "", "";
    }
  }

  lemma {:induction false} TrimmedEnds(s: string)
    requires Trim(s) != ""
    ensures !IsSpace(Trim(s)[|Trim(s)| - 1])
    decreases |s|
  {
    if IsSpace(s[0]) { TrimmedEnds(s[1..]); } else if IsSpace(s[|s| - 1]) { TrimmedEnds(s[..|s| - 1]); }
  }

  /** A link as the parser takes it: decodable in lower case, written in one case. */
  predicate GoodLink(value: string) {
    LinkLike(value) && (value == ToLower(value) || value == ToUpper(value)) && Decode(ToLower(value)).Ok?
  }

  /** A good link, with white space and a scheme around it. */
  predicate Dressed(before: string, scheme: string, value: string, after: string) {
    AllSpace(before) && AllSpace(after) && Scheme(scheme) && GoodLink(value)
  }

  /** Another character after the separator. */
  predicate Mistyped(value: string, p: nat, c: char) {
    LastIndexOf(ToLower(value), '1') < p < |value| && c != value[p]
  }

  lemma DecodableStarts(value: string)
    requires Decode(ToLower(value)).Ok?
    ensures 12 <= |value| && Lower(value[0]) == 'n' && Lower(value[1]) == 'p'
  {
    DecodableSplit(ToLower(value));
    var low := ToLower(value);
    var split := LastIndexOf(low, '1');
    var prefix := low[..split];
    assert prefix == "npub" || prefix == "nprofile";
    assert low[0] == prefix[0] && low[1] == prefix[1];
  }

  lemma AcceptedValue(value: string, uri: bool)
    requires ParseValue(value, uri).Ok? && ParseValue(value, uri).value.format != PublicKey
    ensures (value == ToLower(value) || value == ToUpper(value)) && Decode(ToLower(value)).Ok?
  {
  }

  lemma SchemeCut(trimmed: string)
    requires StartsWith(trimmed, "nostr:")
    ensures |trimmed| >= 6 && trimmed == trimmed[..6] + trimmed[6..] && Scheme(trimmed[..6])
  {
    assert |"nostr:"| == 6;
  }

  lemma AcceptedTrimmed(trimmed: string) returns (scheme: string, value: string)
    ensures trimmed == scheme + value && Scheme(scheme)
    ensures ParseValue(value, scheme != "") == ParseTrimmed(trimmed)
  {
    if StartsWith(trimmed, "nostr:") {
      SchemeCut(trimmed);
      scheme, value := trimmed[..6], trimmed[6..];
    } else {
      scheme, value := "", trimmed;
    }
  }

  lemma AcceptedGood(value: string, uri: bool)
    requires ParseValue(value, uri).Ok? && ParseValue(value, uri).value.format != PublicKey
    requires value != "" ==> !IsSpace(value[|value| - 1])
    ensures GoodLink(value)
  {
    AcceptedValue(value, uri);
    DecodableStarts(value);
  }

  lemma AcceptedLink(trimmed: string) returns (scheme: string, value: string)
    requires ParseTrimmed(trimmed).Ok? && ParseTrimmed(trimmed).value.format != PublicKey
    requires trimmed != "" ==> !IsSpace(trimmed[|trimmed| - 1])
    ensures trimmed == scheme + value && Scheme(scheme) && GoodLink(value)
  {
    scheme, value := AcceptedTrimmed(trimmed);
    AcceptedGood(value, scheme != "");
  }

  lemma Reassociate(before: string, scheme: string, value: string, after: string)
    ensures before + (scheme + value) + after == before + scheme + value + after
  {
  }

  /** Whatever link is accepted is a good link with white space and a scheme around it. */
  lemma AcceptedIsDressed(input: string) returns (before: string, scheme: string, value: string, after: string)
    requires Parse(input).Ok? && Parse(input).value.format != PublicKey
    ensures input == before + scheme + value + after
    ensures Dressed(before, scheme, value, after)
  {
    before, after := TrimSplits(input);
    if Trim(input) != "" { TrimmedEnds(input); }
    scheme, value := AcceptedLink(Trim(input));
    Reassociate(before, scheme, value, after);
  }

  // The theorem.

  /** Two capitals with the lower case `k`. */
  predicate SameCapital(a: char, c: char) { (a == 'K' && c == KELVIN) || (a == KELVIN && c == 'K') }

  lemma CaseFlip(a: char, c: char)
    requires Lower(c) == Lower(a) && c != a && !SameCapital(a, c)
    ensures (Lower(a) == a ==> Lower(c) != c) && (Upper(a) == a ==> Upper(c) != c)
  {
  }

  lemma MixedLink(value: string, uri: bool)
    requires LinkLike(value) && value != ToLower(value) && value != ToUpper(value)
    ensures ParseValue(value, uri) == Err(MixedCase)
  {
    LinkIsNothingElse(value);
  }

  lemma LowerUpdate(value: string, p: nat, c: char)
    requires p < |value|
    ensures ToLower(value[p := c]) == ToLower(value)[p := Lower(c)]
  {
  }

  lemma CapitalStays(value: string, p: nat, c: char)
    requires p < |value| && SameCapital(value[p], c) && (value == ToLower(value) || value == ToUpper(value))
    ensures value[p := c] == ToUpper(value[p := c]) && ToLower(value[p := c]) == ToLower(value)
  {
    assert ToLower(value)[p] == Lower(value[p]);
    LowerUpdate(value, p, c);
  }

  /** A wrong character that stays in the text. */
  lemma InnerTypo(value: string, p: nat, c: char, uri: bool)
    requires GoodLink(value) && LastIndexOf(ToLower(value), '1') < p < |value| && c != value[p]
    requires 2 <= p && LinkLike(value[p := c])
    ensures ParseValue(value[p := c], uri).Ok? <==> SameCapital(value[p], c)
  {
    var bad := value[p := c];
    if SameCapital(value[p], c) {
      CapitalStays(value, p, c);
    } else if Lower(c) == Lower(value[p]) {
      CaseFlip(value[p], c);
      NStart(value);
      MixedNow(value, bad, p);
    } else {
      LowerUpdate(value, p, c);
      TypoUndecodable(ToLower(value), p, Lower(c));
    }
    if bad != ToLower(bad) && bad != ToUpper(bad) { MixedLink(bad, uri); } else { ParseLink(bad, uri); }
  }

  lemma NStart(value: string)
    requires LinkLike(value)
    ensures value[0] == 'n' || value[0] == 'N'
  {
  }

  lemma MixedNow(value: string, bad: string, p: nat)
    requires value == ToLower(value) || value == ToUpper(value)
    requires 0 < p < |value| == |bad| && bad[0] == value[0] && (value[0] == 'n' || value[0] == 'N')
    requires (Lower(value[p]) == value[p] ==> Lower(bad[p]) != bad[p]) && (Upper(value[p]) == value[p] ==> Upper(bad[p]) != bad[p])
    ensures bad != ToLower(bad) && bad != ToUpper(bad)
  {
    assert ToLower(value)[0] == Lower(value[0]) && ToUpper(value)[0] == Upper(value[0]);
    assert ToLower(value)[p] == Lower(value[p]) && ToUpper(value)[p] == Upper(value[p]);
    assert ToLower(bad)[p] == Lower(bad[p]) && ToUpper(bad)[p] == Upper(bad[p]);
    assert ToLower(bad)[0] == Lower(bad[0]) && ToUpper(bad)[0] == Upper(bad[0]);
  }

  lemma ShortenedCase(value: string)
    requires value != "" && (value == ToLower(value) || value == ToUpper(value))
    ensures var short := value[..|value| - 1];
            short == ToLower(short) || short == ToUpper(short)
  {
    var short := value[..|value| - 1];
    assert ToLower(short) == ToLower(value)[..|value| - 1] && ToUpper(short) == ToUpper(value)[..|value| - 1];
  }

  lemma ShortenedLinkLike(value: string)
    requires LinkLike(value) && |value| >= 3 && IndexOf(ToLower(value)[|value| - 2]) >= 0
    ensures LinkLike(value[..|value| - 1])
  {
    LowerLetterIsNoSpace(value[|value| - 2]);
  }

  lemma ShortenedGood(value: string)
    requires GoodLink(value)
    ensures LinkLike(value[..|value| - 1])
  {
    DecodableSplit(ToLower(value));
    LetterAfterSplit(ToLower(value), |value| - 2);
    ShortenedLinkLike(value);
  }

  lemma LowerOfShortened(value: string)
    requires value != ""
    ensures ToLower(value[..|value| - 1]) == ToLower(value)[..|value| - 1]
  {
  }

  lemma ShortenedLower(value: string)
    requires value != "" && Decode(ToLower(value)).Ok?
    ensures Decode(ToLower(value[..|value| - 1])).Err?
  {
    LowerOfShortened(value);
    ShortenedUndecodable(ToLower(value), ToLower(value[..|value| - 1]));
  }

  /** The last character gone. */
  lemma LostLast(value: string, uri: bool)
    requires GoodLink(value)
    ensures LinkLike(value[..|value| - 1]) && ParseValue(value[..|value| - 1], uri).Err?
  {
    ShortenedGood(value);
    ShortenedLower(value);
    ShortenedCase(value);
    ParseLink(value[..|value| - 1], uri);
  }

  lemma LowerLetterIsNoSpace(c: char)
    requires IndexOf(Lower(c)) >= 0
    ensures !IsSpace(c)
  {
    LetterShape(Lower(c));
  }

  lemma ParseUndressed(before: string, core: string, scheme: string, value: string, after: string, input: string)
    requires AllSpace(before) && AllSpace(after) && Scheme(scheme) && LinkLike(value) && core == scheme + value
    requires input == before + core + after && |input| <= 5000
    ensures Parse(input) == ParseValue(value, scheme != "")
  {
    if scheme != "" { assert Lower(scheme[0]) == "nostr:"[0]; }
    TrimDressed(before, core, after);
    SchemeIsStripped(scheme, value);
  }

  lemma SpaceIsNoCapital(a: char, c: char)
    requires IsSpace(c)
    ensures !SameCapital(a, c)
  {
  }

  lemma LongRefused(input: string)
    requires |input| > 5000
    ensures Parse(input).Err?
  {
  }

  /**
  One wrong character after the separator of an accepted link is refused, whatever surrounds the
  link and whatever the character is, unless it is one capital of `k` for the other.
  */
  lemma TypoAcceptedIff(before: string, scheme: string, value: string, after: string, p: nat, c: char, input: string)
    requires Dressed(before, scheme, value, after) && Mistyped(value, p, c)
    requires input == before + scheme + value[p := c] + after
    ensures Parse(input).Ok? <==> |input| <= 5000 && SameCapital(value[p], c)
  {
    if |input| > 5000 {
      LongRefused(input);
    } else if IsSpace(c) && p == |value| - 1 {
      TrimmedTypo(before, scheme, value, after, c, input);
      SpaceIsNoCapital(value[p], c);
    } else {
      UntrimmedTypo(before, scheme, value, after, p, c, input);
    }
  }

  lemma TrimmedShape(before: string, scheme: string, value: string, after: string, c: char)
    requires value != "" && AllSpace(after) && IsSpace(c)
    ensures before + scheme + value[|value| - 1 := c] + after == before + (scheme + value[..|value| - 1]) + ([c] + after)
    ensures AllSpace([c] + after)
  {
    assert value[|value| - 1 := c] == value[..|value| - 1] + [c];
  }

  lemma TrimmedTypo(before: string, scheme: string, value: string, after: string, c: char, input: string)
    requires Dressed(before, scheme, value, after) && IsSpace(c)
    requires input == before + scheme + value[|value| - 1 := c] + after && |input| <= 5000
    ensures Parse(input).Err?
  {
    var short := value[..|value| - 1];
    LostLast(value, scheme != "");
    TrimmedShape(before, scheme, value, after, c);
    ParseUndressed(before, scheme + short, scheme, short, [c] + after, input);
  }

  lemma UntrimmedTypo(before: string, scheme: string, value: string, after: string, p: nat, c: char, input: string)
    requires Dressed(before, scheme, value, after) && Mistyped(value, p, c) && !(IsSpace(c) && p == |value| - 1)
    requires input == before + scheme + value[p := c] + after && |input| <= 5000
    ensures Parse(input).Ok? <==> SameCapital(value[p], c)
  {
    var bad := value[p := c];
    StillGood(value, p, c);
    InnerTypo(value, p, c, scheme != "");
    Reassociate(before, scheme, bad, after);
    ParseUndressed(before, scheme + bad, scheme, bad, after, input);
  }

  lemma StillLinkLike(value: string, p: nat, c: char)
    requires LinkLike(value) && 2 <= p < |value| && !(IsSpace(c) && p == |value| - 1)
    ensures LinkLike(value[p := c])
  {
  }

  lemma StillGood(value: string, p: nat, c: char)
    requires GoodLink(value) && LastIndexOf(ToLower(value), '1') < p < |value| && !(IsSpace(c) && p == |value| - 1)
    ensures 2 <= p && LinkLike(value[p := c])
  {
    DecodableSplit(ToLower(value));
    StillLinkLike(value, p, c);
  }

  // The exception occurs.

  lemma {:induction false} StreamSize(data: seq<nat>)
    ensures |Regroup.Stream(data, 8)| == 8 * |data|
  {
    if data != [] { StreamSize(data[..|data| - 1]); }
  }

  lemma {:induction false} GroupsFewer(bits: Bits, width: nat)
    requires width > 0
    ensures |Regroup.Groups(bits, width)| <= |bits|
    decreases |bits|
  {
    if |bits| >= width { GroupsFewer(bits[width..], width); }
  }

  /** The first letter of a link carries the high five bits of its first byte. */
  lemma FirstWord(bytes: seq<nat>)
    requires bytes != [] && Regroup.Fits(bytes, 8)
    ensures var words := Regroup.Convert(bytes, 8, 5, true).value;
            0 < |words| <= 8 * |bytes| + 1 && words[0] == Shr(bytes[0], 3)
  {
    var b, bits := bytes[0], Regroup.Stream(bytes, 8);
    assert bytes == [b] + bytes[1..];
    Regroup.StreamPrepend(b, bytes[1..], 8);
    BitsSplit(b, 5, 3);
    assert bits[..5] == ToBits(Shr(b, 3), 5);
    ShrBelow(b, 3, 5);
    BitsRoundTrip(Shr(b, 3), 5);
    LowOfSmall(Shr(b, 3), 5);
    StreamSize(bytes);
    GroupsFewer(bits, 5);
  }

  const SAMPLE: string := ['b', '0'] + seq(62, _ => '0')

  lemma SampleBytes()
    ensures Hex64(SAMPLE) && Regroup.Fits(Unhex(SAMPLE), 8) && Unhex(SAMPLE)[0] == 0xB0
  {
    assert Pow2(8) == 256;
  }

  lemma SampleLink()
    ensures var link := NpubOf(SAMPLE); 5 < |link| <= 300 && link[5] == 'k' && Encode("npub", Unhex(SAMPLE)) == Ok(link)
  {
    SampleBytes();
    FirstWord(Unhex(SAMPLE));
    var words := RegroupedBytes(Unhex(SAMPLE));
    assert words[0] == 22;
    SampleLetters(words);
  }

  lemma SampleLetters(words: seq<nat>)
    requires words != [] && |words| <= 257 && words[0] == 22 && Words5(words)
    ensures 5 < |Seal("npub", words)| <= 300 && Seal("npub", words)[5] == 'k'
  {
    Bech32.ChecksumVerifies(Expand("npub") + words);
    assert ALPHABET[22] == 'k';
  }

  lemma KelvinFor(link: string)
    requires GoodLink(link) && 5 < |link| <= 300 && link[5] == 'K' && LastIndexOf(ToLower(link), '1') == 4
    ensures Parse(link[5 := KELVIN]).Ok?
  {
    Undressed(link[5 := KELVIN]);
    TypoAcceptedIff("", "", link, "", 5, KELVIN, link[5 := KELVIN]);
  }

  lemma Undressed(link: string)
    ensures "" + "" + link + "" == link
  {
  }

  lemma SampleParses()
    ensures Parse(ToUpper(NpubOf(SAMPLE))).Ok?
  {
    SampleBytes();
    SampleLink();
    KeyRoundTrip(SAMPLE, "", "", true, "");
    Undressed(ToUpper(NpubOf(SAMPLE)));
  }

  /** A key whose `npub`, in capitals and with a Kelvin sign for a `K`, is accepted. */
  lemma KelvinAccepted()
    ensures var link := ToUpper(NpubOf(SAMPLE));
            5 < |link| && link[5] == 'K' && Parse(link).Ok? && Parse(link[5 := KELVIN]).Ok?
  {
    SampleLink();
    SampleParses();
    SampleGood();
    SplitOfSample();
    KelvinFor(ToUpper(NpubOf(SAMPLE)));
  }

  lemma SampleGood()
    ensures GoodLink(ToUpper(NpubOf(SAMPLE))) && ToLower(ToUpper(NpubOf(SAMPLE))) == NpubOf(SAMPLE)
  {
    SampleBytes();
    SampleLink();
    EncodedIsLinkLike("npub", Unhex(SAMPLE));
    DecodeEncode("npub", Unhex(SAMPLE));
  }

  lemma SplitAfterPrefix(link: string, prefix: string, letters: string)
    requires link == prefix + "1" + letters && AllLetters(letters)
    ensures LastIndexOf(link, '1') == |prefix|
  {
    forall i | 0 <= i < |letters| ensures letters[i] != '1' { LetterShape(letters[i]); }
    LastSplit(prefix, letters);
  }

  lemma LinkInParts(link: string, prefix: string)
    requires |prefix| < |link| && link[..|prefix|] == prefix && link[|prefix|] == '1'
    ensures link == prefix + "1" + link[|prefix| + 1..]
  {
  }

  lemma SplitOfSample()
    ensures LastIndexOf(NpubOf(SAMPLE), '1') == 4
  {
    SampleBytes();
    SampleLink();
    UnsealEncode("npub", Unhex(SAMPLE));
    LinkInParts(NpubOf(SAMPLE), "npub");
    SplitAfterPrefix(NpubOf(SAMPLE), "npub", NpubOf(SAMPLE)[5..]);
  }
}
