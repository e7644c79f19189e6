/**
The desktop client's contact links: NIP-19 `npub` and `nprofile` strings over the
Bech32 checksum and the bit regrouping.
*/
module Contact {
  import opened Common
  import opened BitMath
  import Bech32
  import Regroup

  const ALPHABET: string := "qpzry9x8gf2tvdw0s3jn54khce6mua7l"

  datatype ContactError =
    | TooLong
    | PrivateKey
    | MixedCase
    | WrongPrefix
    | ChecksumFailed
    | BadEncoding
    | BadPadding
    | KeyLength
    | Truncated
    | NotExactlyOneKey
    | NoKey

  datatype Format = PublicKey | Npub | Profile

  datatype Parsed = Parsed(key: string, format: Format, hintsIgnored: bool)

  /** `alphabet.indexOf(c)`. */
  function IndexOf(c: char): (r: int)
    ensures -1 <= r < 32
  {
    if c == 'q' then 0
    else if c == 'p' then 1
    else if c == 'z' then 2
    else if c == 'r' then 3
    else if c == 'y' then 4
    else if c == '9' then 5
    else if c == 'x' then 6
    else if c == '8' then 7
    else if c == 'g' then 8
    else if c == 'f' then 9
    else if c == '2' then 10
    else if c == 't' then 11
    else if c == 'v' then 12
    else if c == 'd' then 13
    else if c == 'w' then 14
    else if c == '0' then 15
    else if c == 's' then 16
    else if c == '3' then 17
    else if c == 'j' then 18
    else if c == 'n' then 19
    else if c == '5' then 20
    else if c == '4' then 21
    else if c == 'k' then 22
    else if c == 'h' then 23
    else if c == 'c' then 24
    else if c == 'e' then 25
    else if c == '6' then 26
    else if c == 'm' then 27
    else if c == 'u' then 28
    else if c == 'a' then 29
    else if c == '7' then 30
    else if c == 'l' then 31
    else -1
  }

  /** The alphabet letters and their indices are inverse to each other. */
  lemma AlphabetIndex(w: nat)
    requires w < 32
    ensures IndexOf(ALPHABET[w]) == w
  {
  }

  lemma IndexLetter(c: char)
    requires IndexOf(c) >= 0
    ensures ALPHABET[IndexOf(c)] == c
  {
  }

  // Characters and strings. Case mapping is that of ASCII, and the Kelvin sign, a capital of
  // its own, has the lower case of `K`.

  const KELVIN: char := '\U{212A}'

  function Lower(c: char): char {
    if 'A' <= c <= 'Z' then (c as int + 32) as char else if c == KELVIN then 'k' else c
  }

  function Upper(c: char): char { if 'a' <= c <= 'z' then (c as int - 32) as char else c }

  function ToLower(s: string): (r: string)
    ensures |r| == |s| && forall i | 0 <= i < |s| :: r[i] == Lower(s[i])
  {
    seq(|s|, i requires 0 <= i < |s| => Lower(s[i]))
  }

  function ToUpper(s: string): (r: string)
    ensures |r| == |s| && forall i | 0 <= i < |s| :: r[i] == Upper(s[i])
  {
    seq(|s|, i requires 0 <= i < |s| => Upper(s[i]))
  }

  predicate IsSpace(c: char) {
    || '\t' <= c <= '\r' || c == ' ' || c as int in {0xA0, 0x1680, 0x2028, 0x2029, 0x202F, 0x205F, 0x3000, 0xFEFF}
    || 0x2000 <= c as int <= 0x200A
  }

  function Trim(s: string): string
    decreases |s|
  {
    if s != [] && IsSpace(s[0]) then Trim(s[1..])
    else if s != [] && IsSpace(s[|s| - 1]) then Trim(s[..|s| - 1])
    else s
  }

  /** `prefix` is in lower case; the text may start with it in any case. */
  predicate StartsWith(s: string, prefix: string) {
    |prefix| <= |s| && forall i | 0 <= i < |prefix| :: Lower(s[i]) == prefix[i]
  }

  function LastIndexOf(s: string, c: char): (r: int)
    ensures -1 <= r < |s|
  {
    if s == [] then -1 else if s[|s| - 1] == c then |s| - 1 else LastIndexOf(s[..|s| - 1], c)
  }

  predicate HexDigit(c: char) { '0' <= c <= '9' || 'a' <= c <= 'f' || 'A' <= c <= 'F' }

  predicate Hex64(s: string) { |s| == 64 && forall i | 0 <= i < 64 :: HexDigit(s[i]) }

  function HexValue(c: char): (r: nat)
    requires HexDigit(c)
    ensures r < 16
  {
    if c <= '9' then c as int - '0' as int else Lower(c) as int - 'a' as int + 10
  }

  function HexLetter(v: nat): char
    requires v < 16
  {
    if v < 10 then ('0' as int + v) as char else ('a' as int + v - 10) as char
  }

  /** The last two hexadecimal digits of every byte. */
  function Hex(bytes: seq<nat>): (r: string)
    ensures |r| == 2 * |bytes|
  {
    if bytes == [] then ""
    else [HexLetter(bytes[0] / 16 % 16), HexLetter(bytes[0] % 16)] + Hex(bytes[1..])
  }

  function Unhex(s: string): (r: seq<nat>)
    requires |s| % 2 == 0 && forall i | 0 <= i < |s| :: HexDigit(s[i])
    ensures |r| == |s| / 2 && forall i | 0 <= i < |r| :: r[i] < 256
  {
    if s == "" then [] else [HexValue(s[0]) * 16 + HexValue(s[1])] + Unhex(s[2..])
  }

  // The codec.

  /** High parts, a zero, low parts. */
  function Expand(prefix: string): seq<nat> {
    seq(|prefix|, i requires 0 <= i < |prefix| => prefix[i] as int / 32)
      + [0] + seq(|prefix|, i requires 0 <= i < |prefix| => prefix[i] as int % 32)
  }

  predicate Words5(words: seq<nat>) { forall i | 0 <= i < |words| :: words[i] < 32 }

  function Letters(words: seq<nat>): (r: string)
    requires Words5(words)
    ensures |r| == |words| && forall i | 0 <= i < |words| :: r[i] == ALPHABET[words[i]]
  {
    seq(|words|, i requires 0 <= i < |words| => ALPHABET[words[i]])
  }

  predicate AllLetters(s: string) { forall i | 0 <= i < |s| :: IndexOf(s[i]) >= 0 }

  function WordsOf(s: string): (r: seq<nat>)
    requires AllLetters(s)
    ensures |r| == |s| && forall i | 0 <= i < |s| :: r[i] == IndexOf(s[i])
  {
    seq(|s|, i requires 0 <= i < |s| => IndexOf(s[i]))
  }

  /** Data words followed by their six checksum words, as letters. */
  function Seal(prefix: string, words: seq<nat>): string
    requires Words5(words)
  {
    Bech32.ChecksumVerifies(Expand(prefix) + words);
    var check := Bech32.CheckWords(Expand(prefix) + words);
    assert forall i | 0 <= i < |check| :: check[i] in check;
    prefix + "1" + Letters(words + check)
  }

  function Encode(prefix: string, bytes: seq<nat>): Result<string, ContactError> {
    match Regroup.Convert(bytes, 8, 5, true)
    case Err(_) => Err(BadEncoding)
    case Ok(words) =>
      assert Words5(words) by { Regroup.RoundTrip(bytes, 8, 5); assert Pow2(5) == 32; }
      Ok(Seal(prefix, words))
  }

  /** A hexadecimal key as an `npub`, and nothing for anything else. */
  function NpubOf(key: string): string {
    if !Hex64(key) then "" else
    match Encode("npub", Unhex(key))
    case Ok(link) => link
    case Err(_) => ""
  }

  /** The payload of a link whose letters carry a good checksum. */
  function Unseal(prefix: string, letters: string): Result<seq<nat>, ContactError> {
    if |letters| < 7 || !AllLetters(letters) then Err(ChecksumFailed)
    else
      var words := WordsOf(letters);
      if Bech32.Polymod(Expand(prefix) + words) != Bech32.ONE then Err(ChecksumFailed)
      else match Regroup.Convert(words[..|words| - 6], 5, 8, false)
        case Ok(bytes) => Ok(bytes)
        case Err(_) => Err(BadPadding)
  }

  /** The key of a profile's type-length-value list, and whether it carries relay hints. */
  function ProfileKey(bytes: seq<nat>, key: Option<seq<nat>>, hints: bool): Result<(seq<nat>, bool), ContactError>
    decreases |bytes|
  {
    if bytes == [] then
      if key.None? then Err(NoKey) else Ok((key.value, hints))
    else if |bytes| < 2 || 2 + bytes[1] > |bytes| then Err(Truncated)
    else if bytes[0] == 0 && (key.Some? || bytes[1] != 32) then Err(NotExactlyOneKey)
    else
      ProfileKey(bytes[2 + bytes[1]..], if bytes[0] == 0 then Some(bytes[2..2 + bytes[1]]) else key,
                 hints || bytes[0] == 1)
  }

  /** The payload as the prefix reads it. */
  function Contents(prefix: string, bytes: seq<nat>): Result<Parsed, ContactError> {
    if prefix == "npub" then
      if |bytes| != 32 then Err(KeyLength) else Ok(Parsed(Hex(bytes), Npub, false))
    else match ProfileKey(bytes, None, false)
      case Err(e) => Err(e)
      case Ok((key, hints)) => Ok(Parsed(Hex(key), Profile, hints))
  }

  function DecodeParts(prefix: string, letters: string): Result<Parsed, ContactError> {
    if prefix != "npub" && prefix != "nprofile" then Err(WrongPrefix)
    else match Unseal(prefix, letters)
      case Err(e) => Err(e)
      case Ok(bytes) => Contents(prefix, bytes)
  }

  /** A link in lower case, without its URI scheme, cut at its last `1`. */
  function Decode(value: string): Result<Parsed, ContactError> {
    var split := LastIndexOf(value, '1');
    var prefix := if split >= 0 then value[..split] else if value == "" then "" else value[..|value| - 1];
    DecodeParts(prefix, value[split + 1..])
  }

  /** What follows the URI scheme, if there is one. */
  function ParseValue(value: string, uri: bool): Result<Parsed, ContactError> {
    if StartsWith(value, "nsec1") then Err(PrivateKey)
    else
      var bare := if "dm:" <= value then value[3..] else value;
      if !uri && Hex64(bare) then Ok(Parsed(ToLower(bare), PublicKey, false))
      else if value != ToLower(value) && value != ToUpper(value) then Err(MixedCase)
      else Decode(ToLower(value))
  }

  function ParseTrimmed(trimmed: string): Result<Parsed, ContactError> {
    if StartsWith(trimmed, "nostr:") then ParseValue(trimmed[6..], true) else ParseValue(trimmed, false)
  }

  function Parse(input: string): Result<Parsed, ContactError> {
    if |input| > 5000 then Err(TooLong) else ParseTrimmed(Trim(input))
  }

  /** The scan of a profile, with its own offset and flags. */
  method ReadProfile(bytes: seq<nat>) returns (r: Result<(seq<nat>, bool), ContactError>)
    ensures r == ProfileKey(bytes, None, false)
  {
    var offset, key, hints := 0, None, false;
    while offset < |bytes|
      invariant offset <= |bytes|
      invariant ProfileKey(bytes, None, false) == ProfileKey(bytes[offset..], key, hints)
    {
      if offset + 2 > |bytes| { return Err(Truncated); }
      var kind, length := bytes[offset], bytes[offset + 1];
      if offset + 2 + length > |bytes| { return Err(Truncated); }
      ghost var rest := bytes[offset..];
      assert rest[2 + length..] == bytes[offset + 2 + length..];
      assert rest[2..2 + length] == bytes[offset + 2..offset + 2 + length];
      offset := offset + 2;
      if kind == 0 {
        if key.Some? || length != 32 { return Err(NotExactlyOneKey); }
        key := Some(bytes[offset..offset + length]);
      }
      if kind == 1 { hints := true; }
      offset := offset + length;
    }
    if key.None? { return Err(NoKey); }
    return Ok((key.value, hints));
  }
}
