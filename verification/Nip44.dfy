/**
NIP-44 version 2 payloads: the padding arithmetic, the two length prefixes and the
encryption layer. Key derivation, the stream cipher, the authenticator, base64 and
UTF-8 checking are functions handed in, with their laws in `Lawful`.
*/
module Nip44 {
  import opened Common
  import opened BitMath

  datatype Nip44Error =
    | InvalidPlaintextLength
    | PayloadTooLarge
    | InvalidPayloadSize
    | InvalidBase64
    | UnsupportedVersion
    | InvalidMac
    | InvalidPadding
    | InvalidUtf8
    | KeyDerivationFailed
    | InvalidKey

  const VERSION: byte := 2
  const NONCE_LEN := 32
  const MAC_LEN := 32
  const MIN_ENCODED_PAYLOAD_LEN := 132
  const MIN_DECODED_PAYLOAD_LEN := 99
  const EXTENDED_PREFIX_THRESHOLD := 65536
  const MAX_PLAINTEXT_LEN := 1048576

  // Padded lengths.

  /** The exponent of `next_power_of_two`. */
  function Exponent(n: nat): nat {
    if n <= 1 then 0 else 1 + Exponent((n + 1) / 2)
  }

  function NextPower(n: nat): nat { Pow2(Exponent(n)) }

  function RoundUp(n: nat, chunk: nat): nat
    requires n > 0 && chunk > 0
  {
    ((n - 1) / chunk + 1) * chunk
  }

  function Chunk(n: nat): (r: nat)
    requires n > 32
    ensures r > 0
  {
    NextPowerBounds(n);
    if NextPower(n) <= 256 then 32 else NextPower(n) / 8
  }

  function PaddedLen(n: nat): Result<nat, Nip44Error> {
    if n == 0 then Err(InvalidPlaintextLength)
    else if n <= 32 then Ok(32)
    else Ok(RoundUp(n, Chunk(n)))
  }

  lemma {:induction false} NextPowerBounds(n: nat)
    requires n > 0
    ensures n <= NextPower(n) < 2 * n
  {
    if n > 1 { NextPowerBounds((n + 1) / 2); }
  }

  lemma {:induction false} PowerMonotone(j: nat, k: nat)
    requires j <= k
    ensures Pow2(j) <= Pow2(k)
    decreases k
  {
    if j < k { PowerMonotone(j, k - 1); }
  }

  /** No smaller power of two is large enough. */
  lemma NextPowerLeast(n: nat, k: nat)
    requires 0 < n <= Pow2(k)
    ensures NextPower(n) <= Pow2(k)
  {
    NextPowerBounds(n);
    if k < Exponent(n) {
      PowerMonotone(k + 1, Exponent(n));
    } else {
      PowerMonotone(Exponent(n), k);
    }
  }

  lemma NextPowerMonotone(m: nat, n: nat)
    requires 0 < m <= n
    ensures NextPower(m) <= NextPower(n)
  {
    NextPowerBounds(n);
    NextPowerLeast(m, Exponent(n));
  }

  /** A power of two above 256 is eight times the chunk; one from 64 to 256 a multiple of 32. */
  lemma ChunkDivides(n: nat) returns (q: nat)
    requires n > 32
    ensures NextPower(n) == q * Chunk(n)
  {
    NextPowerBounds(n);
    var k := Exponent(n);
    assert Pow2(5) == 32;
    if k < 6 { PowerMonotone(k, 5); }
    if k >= 9 {
      PowerMonotone(9, k);
      assert Pow2(9) == 512;
      assert Pow2(k) == 2 * Pow2(k - 1) && Pow2(k - 1) == 2 * Pow2(k - 2) && Pow2(k - 2) == 2 * Pow2(k - 3);
      q := 8;
    } else {
      assert Pow2(6) == 64 && Pow2(7) == 128 && Pow2(8) == 256;
      q := Pow2(k) / 32;
    }
  }

  /** The least multiple of the chunk that holds `n`. */
  lemma RoundUpLeast(n: nat, chunk: nat, q: nat)
    requires n > 0 && chunk > 0
    ensures n <= RoundUp(n, chunk) < n + chunk
    ensures n <= q * chunk ==> RoundUp(n, chunk) <= q * chunk
  {
    var d, m := (n - 1) / chunk, (n - 1) % chunk;
    assert n - 1 == d * chunk + m;
    assert RoundUp(n, chunk) == d * chunk + chunk;
    if n <= q * chunk {
      if q <= d { MulMonotone(q, d, chunk); }
      MulMonotone(d + 1, q, chunk);
    }
  }

  lemma MulMonotone(a: nat, b: nat, c: nat)
    ensures a <= b ==> a * c <= b * c
  {
  }

  lemma RoundUpMonotone(m: nat, n: nat, chunk: nat)
    requires 0 < m <= n && chunk > 0
    ensures RoundUp(m, chunk) <= RoundUp(n, chunk)
  {
    RoundUpLeast(n, chunk, 0);
    RoundUpLeast(m, chunk, (n - 1) / chunk + 1);
  }

  /** Between the length and the next power of two. */
  lemma PaddedBounds(n: nat)
    requires n > 0
    ensures PaddedLen(n).Ok?
    ensures var p := PaddedLen(n).value; n <= p && 32 <= p && (p <= 32 || p <= NextPower(n))
  {
    if n > 32 {
      NextPowerBounds(n);
      var q := ChunkDivides(n);
      RoundUpLeast(n, Chunk(n), q);
    }
  }

  function Max(a: nat, b: nat): nat { if a < b then b else a }

  lemma ExponentIs(n: nat, k: nat)
    requires n > 0 && k > 0 && Pow2(k - 1) < n <= Pow2(k)
    ensures NextPower(n) == Pow2(k)
  {
    NextPowerBounds(n);
    NextPowerLeast(n, k);
    if Exponent(n) < k { PowerMonotone(Exponent(n), k - 1); } else { PowerMonotone(k, Exponent(n)); }
  }

  lemma ChunkIs(n: nat, k: nat)
    requires n > 32 && k > 0 && Pow2(k - 1) < n <= Pow2(k)
    ensures Chunk(n) == Max(32, Pow2(k) / 8)
  {
    ExponentIs(n, k);
    assert Pow2(8) == 256 && Pow2(9) == 512;
    if k >= 9 { PowerMonotone(9, k); } else { PowerMonotone(k, 8); }
  }

  /** Up to 32 bytes pad to 32; more pad to the least multiple of an eighth of the next power of two, or of 32. */
  lemma PaddedIsLeast(n: nat, k: nat, q: nat) returns (d: nat)
    requires n > 0 && n <= Pow2(k) && (k > 0 ==> Pow2(k - 1) < n)
    ensures PaddedLen(n).Ok?
    ensures n <= 32 ==> PaddedLen(n).value == 32
    ensures n > 32 ==>
              var chunk, p := Max(32, Pow2(k) / 8), PaddedLen(n).value;
              p == d * chunk && n <= p && (n <= q * chunk ==> p <= q * chunk)
  {
    d := 1;
    if n > 32 {
      ChunkIs(n, k);
      RoundUpLeast(n, Chunk(n), q);
      d := (n - 1) / Chunk(n) + 1;
    }
  }

  lemma PaddedMonotone(m: nat, n: nat)
    requires 0 < m <= n
    ensures PaddedLen(m).Ok? && PaddedLen(n).Ok? && PaddedLen(m).value <= PaddedLen(n).value
  {
    PaddedBounds(m);
    PaddedBounds(n);
    NextPowerMonotone(m, n);
    if m > 32 && NextPower(m) == NextPower(n) {
      RoundUpMonotone(m, n, Chunk(m));
    } else if m > 32 {
      NextPowerBounds(m);
      if n <= NextPower(m) { NextPowerLeast(n, Exponent(m)); }
    }
  }

  /** Padding a padded length changes nothing. */
  lemma PaddedIdempotent(n: nat)
    requires n > 0
    ensures PaddedLen(n).Ok? && PaddedLen(PaddedLen(n).value) == PaddedLen(n)
  {
    PaddedBounds(n);
    var p := PaddedLen(n).value;
    if n > 32 {
      NextPowerMonotone(n, p);
      NextPowerLeast(p, Exponent(n));
      RoundUpFixed(n, Chunk(n));
    }
  }

  lemma RoundUpFixed(n: nat, chunk: nat)
    requires n > 0 && chunk > 0
    ensures RoundUp(n, chunk) > 0 && RoundUp(RoundUp(n, chunk), chunk) == RoundUp(n, chunk)
  {
    RoundUpLeast(n, chunk, 0);
    RoundUpLeast(RoundUp(n, chunk), chunk, (n - 1) / chunk + 1);
  }

  /** Beyond 256 bytes less than a quarter of the length is filler. */
  lemma PaddedWaste(n: nat)
    requires n > 256
    ensures PaddedLen(n).Ok? && 4 * (PaddedLen(n).value - n) < n
  {
    NextPowerBounds(n);
    RoundUpLeast(n, Chunk(n), 0);
  }

  // Padding.

  function PrefixLen(n: nat): nat { if n >= EXTENDED_PREFIX_THRESHOLD then 6 else 2 }

  function BigEndian16(n: nat): Bytes { [n / 256 % 256, n % 256] }

  function BigEndian32(n: nat): Bytes { BigEndian16(n / 65536) + BigEndian16(n) }

  function From16(a: byte, b: byte): nat { a * 256 + b }

  function Prefix(n: nat): (r: Bytes)
    ensures |r| == PrefixLen(n)
  {
    if n >= EXTENDED_PREFIX_THRESHOLD then [0, 0] + BigEndian32(n) else BigEndian16(n)
  }

  function Filler(n: nat): Bytes { seq(n, _ => 0) }

  function Pad(m: Bytes): Result<Bytes, Nip44Error> {
    if |m| == 0 then Err(InvalidPlaintextLength)
    else if |m| > MAX_PLAINTEXT_LEN then Err(PayloadTooLarge)
    else
      PaddedBounds(|m|);
      Ok(Prefix(|m|) + m + Filler(PaddedLen(|m|).value - |m|))
  }

  /** The length the prefix announces, and the length of that prefix. */
  function Announced(x: Bytes): Option<(nat, nat)> {
    if |x| < 2 then None
    else if From16(x[0], x[1]) != 0 then Some((2, From16(x[0], x[1])))
    else if |x| < 6 then None
    else
      var n := From16(x[2], x[3]) * 65536 + From16(x[4], x[5]);
      if n < EXTENDED_PREFIX_THRESHOLD then None else Some((6, n))
  }

  function Unpad(x: Bytes): Result<Bytes, Nip44Error> {
    match Announced(x)
    case None => Err(InvalidPadding)
    case Some((prefix, n)) =>
      if n > MAX_PLAINTEXT_LEN then Err(PayloadTooLarge)
      else match PaddedLen(n)
        case Err(e) => Err(e)
        case Ok(padded) =>
          if |x| != prefix + padded then Err(InvalidPadding)
          else PaddedBounds(n); Ok(x[prefix..prefix + n])
  }

  /** What `pad` writes into its buffer. */
  method BuildPadded(m: Bytes) returns (r: Result<Bytes, Nip44Error>)
    ensures r == Pad(m)
  {
    if |m| == 0 { return Err(InvalidPlaintextLength); }
    if |m| > MAX_PLAINTEXT_LEN { return Err(PayloadTooLarge); }
    PaddedBounds(|m|);
    var padded := PaddedLen(|m|).value;
    var buffer: Bytes := [];
    if |m| >= EXTENDED_PREFIX_THRESHOLD {
      buffer := buffer + [0, 0];
      buffer := buffer + BigEndian32(|m|);
    } else {
      buffer := buffer + BigEndian16(|m|);
    }
    assert buffer == Prefix(|m|);
    var size := |buffer| + padded;
    buffer := buffer + m;
    buffer := buffer + Filler(size - |buffer|);
    return Ok(buffer);
  }

  lemma BigEndianBack(n: nat)
    requires n < 0x1_0000_0000
    ensures n < 65536 ==> From16(BigEndian16(n)[0], BigEndian16(n)[1]) == n
    ensures var b := BigEndian32(n); From16(b[0], b[1]) * 65536 + From16(b[2], b[3]) == n
  {
    Halves(n / 65536);
    Halves(n % 65536);
    LowHalf(n);
  }

  lemma LowHalf(n: nat)
    ensures n % 256 == n % 65536 % 256 && n / 256 % 256 == n % 65536 / 256
  {
    var high, low := n / 65536, n % 65536;
    assert n == high * 65536 + low;
    assert n / 256 == high * 256 + low / 256;
  }

  lemma Halves(n: nat)
    requires n < 65536
    ensures n / 256 % 256 == n / 256 && From16(n / 256, n % 256) == n
  {
  }

  /** A prefix announces exactly the length it was made from, whatever follows. */
  lemma PrefixAnnounces(n: nat, rest: Bytes)
    requires 0 < n <= MAX_PLAINTEXT_LEN
    ensures Announced(Prefix(n) + rest) == Some((PrefixLen(n), n))
  {
    BigEndianBack(n);
    var x := Prefix(n) + rest;
    if n >= EXTENDED_PREFIX_THRESHOLD {
      var b := BigEndian32(n);
      assert x[0] == 0 && x[1] == 0 && x[2] == b[0] && x[3] == b[1] && x[4] == b[2] && x[5] == b[3];
    } else {
      assert x[0] == BigEndian16(n)[0] && x[1] == BigEndian16(n)[1];
    }
  }

  /** The prefix is the length in big-endian order: two bytes, or two zeros and four. */
  lemma PrefixIsBigEndian(n: nat)
    requires 0 < n <= MAX_PLAINTEXT_LEN
    ensures var p := Prefix(n);
            if n < 65536 then |p| == 2 && p[0] as int * 256 + p[1] as int == n
            else |p| == 6 && p[0] == p[1] == 0 && ((p[2] as int * 256 + p[3] as int) * 256 + p[4] as int) * 256 + p[5] as int == n
  {
    BigEndianBack(n);
  }

  /** And an announced length has only that prefix. */
  lemma AnnouncedPrefix(x: Bytes)
    requires Announced(x).Some? && Announced(x).value.1 <= MAX_PLAINTEXT_LEN
    ensures var (prefix, n) := Announced(x).value;
            n > 0 && prefix == PrefixLen(n) && prefix <= |x| && x[..prefix] == Prefix(n)
  {
    if From16(x[0], x[1]) != 0 {
      Bytes16(x[0], x[1]);
      assert x[..2] == [x[0], x[1]];
    } else {
      Bytes32(x[2], x[3], x[4], x[5]);
      assert x[..6] == [0, 0] + [x[2], x[3], x[4], x[5]];
    }
  }

  lemma Bytes32(a: byte, b: byte, c: byte, d: byte)
    ensures BigEndian32(From16(a, b) * 65536 + From16(c, d)) == [a, b, c, d]
  {
    Bytes16(a, b);
    Bytes16(c, d);
    Split32(From16(a, b), From16(c, d));
  }

  lemma Bytes16(a: byte, b: byte)
    ensures BigEndian16(From16(a, b)) == [a, b] && From16(a, b) < 65536
  {
    assert (a * 256 + b) / 256 == a && (a * 256 + b) % 256 == b;
  }

  lemma Split32(high: nat, low: nat)
    requires low < 65536
    ensures BigEndian32(high * 65536 + low) == BigEndian16(high) + BigEndian16(low)
  {
    var n := high * 65536 + low;
    assert n / 65536 == high;
    assert n % 256 == low % 256 && n / 256 % 256 == low / 256 % 256;
  }

  predicate PadsTo(m: Bytes, x: Bytes) {
    && Pad(m).Ok? && |x| == |Pad(m).value|
    && x[..PrefixLen(|m|) + |m|] == Pad(m).value[..PrefixLen(|m|) + |m|]
  }

  /** `unpad` gives `m` exactly for the buffers that agree with `pad(m)` outside the filler. */
  lemma UnpadIff(x: Bytes, m: Bytes)
    ensures Unpad(x) == Ok(m) <==> PadsTo(m, x)
  {
    if PadsTo(m, x) { UnpadPadded(x, m); }
    if Unpad(x) == Ok(m) { UnpaddedPads(x, m); }
  }

  lemma UnpadPadded(x: Bytes, m: Bytes)
    requires PadsTo(m, x)
    ensures Unpad(x) == Ok(m)
  {
    var n, prefix := |m|, PrefixLen(|m|);
    PaddedBounds(n);
    var tail := x[prefix + n..];
    assert Pad(m).value[..prefix + n] == Prefix(n) + m;
    assert x == x[..prefix + n] + tail;
    PrefixAnnounces(n, m + tail);
    assert Prefix(n) + m + tail == Prefix(n) + (m + tail);
    assert x[prefix..prefix + n] == m;
  }

  lemma JoinParts(x: Bytes, i: nat, j: nat)
    requires i <= j <= |x|
    ensures x[..j] == x[..i] + x[i..j]
  {
  }

  lemma PadStarts(m: Bytes)
    requires Pad(m).Ok?
    ensures PrefixLen(|m|) + |m| <= |Pad(m).value| && Pad(m).value[..PrefixLen(|m|) + |m|] == Prefix(|m|) + m
  {
  }

  lemma UnpadReads(x: Bytes, m: Bytes) returns (prefix: nat, n: nat)
    requires Unpad(x) == Ok(m)
    ensures Announced(x) == Some((prefix, n)) && n == |m| <= MAX_PLAINTEXT_LEN && PaddedLen(n).Ok?
    ensures |x| == prefix + PaddedLen(n).value && prefix + n <= |x| && m == x[prefix..prefix + n]
  {
    prefix, n := Announced(x).value.0, Announced(x).value.1;
    if PaddedLen(n).Ok? { PaddedBounds(n); }
  }

  lemma UnpaddedPads(x: Bytes, m: Bytes)
    requires Unpad(x) == Ok(m)
    ensures PadsTo(m, x)
  {
    var prefix, n := UnpadReads(x, m);
    AnnouncedPrefix(x);
    JoinParts(x, prefix, prefix + n);
    PadStarts(m);
  }

  lemma UnpadPad(m: Bytes)
    requires Pad(m).Ok?
    ensures Unpad(Pad(m).value) == Ok(m)
  {
    UnpadPadded(Pad(m).value, m);
  }

  // The payload.

  datatype Keys = Keys(cipher: Bytes, mac: Bytes)

  datatype Primitives = Primitives(
    messageKeys: (Bytes, Bytes) -> Option<Keys>,
    keystream: (Bytes, Bytes) -> Bytes,
    authenticate: (Bytes, Bytes) -> Bytes,
    base64: Bytes -> Bytes,
    unbase64: Bytes -> Option<Bytes>,
    utf8: Bytes -> bool)

  const HASH: byte := 35

  /** The cipher undoes itself and keeps lengths; base64 decodes what it encoded. */
  ghost predicate Lawful(c: Primitives) {
    && (forall key, data :: |c.keystream(key, data)| == |data|)
    && (forall key, data :: c.keystream(key, c.keystream(key, data)) == data)
    && (forall key, data :: |c.authenticate(key, data)| == MAC_LEN)
    && (forall data :: |c.base64(data)| == (|data| + 2) / 3 * 4)
    && (forall data :: c.unbase64(c.base64(data)) == Some(data))
    && (forall data :: c.base64(data) != [] ==> c.base64(data)[0] != HASH)
  }

  function Assemble(c: Primitives, keys: Keys, nonce: Bytes, padded: Bytes): Bytes {
    var ciphertext := c.keystream(keys.cipher, padded);
    [VERSION] + nonce + ciphertext + c.authenticate(keys.mac, nonce + ciphertext)
  }

  function Encrypt(c: Primitives, key: Bytes, m: Bytes, nonce: Bytes): Result<Bytes, Nip44Error> {
    match Pad(m)
    case Err(e) => Err(e)
    case Ok(padded) =>
      match c.messageKeys(key, nonce)
      case None => Err(KeyDerivationFailed)
      case Some(keys) => Ok(c.base64(Assemble(c, keys, nonce, padded)))
  }

  function MaximumEncodedLen(): nat {
    PaddedBounds(MAX_PLAINTEXT_LEN);
    var raw := 1 + NONCE_LEN + PrefixLen(MAX_PLAINTEXT_LEN) + PaddedLen(MAX_PLAINTEXT_LEN).value + MAC_LEN;
    (raw + 2) / 3 * 4
  }

  /** The checks on the encoded text before it is decoded. */
  function Gate(payload: Bytes): Option<Nip44Error> {
    if payload == [] || payload[0] == HASH then Some(UnsupportedVersion)
    else if |payload| < MIN_ENCODED_PAYLOAD_LEN then Some(InvalidPayloadSize)
    else if |payload| > MaximumEncodedLen() then Some(PayloadTooLarge)
    else None
  }

  function Disassemble(c: Primitives, key: Bytes, raw: Bytes): Result<Bytes, Nip44Error> {
    if |raw| < MIN_DECODED_PAYLOAD_LEN then Err(InvalidPayloadSize)
    else if raw[0] != VERSION then Err(UnsupportedVersion)
    else
      var end := |raw| - MAC_LEN;
      var nonce, ciphertext, supplied := raw[1..33], raw[33..end], raw[end..];
      match c.messageKeys(key, nonce)
      case None => Err(KeyDerivationFailed)
      case Some(keys) =>
        if c.authenticate(keys.mac, nonce + ciphertext) != supplied then Err(InvalidMac)
        else Unpad(c.keystream(keys.cipher, ciphertext))
  }

  function Decrypt(c: Primitives, key: Bytes, payload: Bytes): Result<Bytes, Nip44Error> {
    if Gate(payload).Some? then Err(Gate(payload).value)
    else match c.unbase64(payload)
      case None => Err(InvalidBase64)
      case Some(raw) =>
        match Disassemble(c, key, raw)
        case Err(e) => Err(e)
        case Ok(m) => if c.utf8(m) then Ok(m) else Err(InvalidUtf8)
  }

  /** The payload of a padded message is never too short or too long for the receiver. */
  lemma LengthsPassGate(n: nat)
    requires 0 < n <= MAX_PLAINTEXT_LEN
    ensures PaddedLen(n).Ok?
    ensures var raw := 1 + NONCE_LEN + PrefixLen(n) + PaddedLen(n).value + MAC_LEN;
            && MIN_DECODED_PAYLOAD_LEN <= raw
            && MIN_ENCODED_PAYLOAD_LEN <= (raw + 2) / 3 * 4 <= MaximumEncodedLen()
            && n <= (raw + 2) / 3 * 4
  {
    PaddedBounds(n);
    PaddedBounds(MAX_PLAINTEXT_LEN);
    PaddedMonotone(n, MAX_PLAINTEXT_LEN);
  }

  lemma DisassembleAssembled(c: Primitives, key: Bytes, keys: Keys, nonce: Bytes, m: Bytes)
    requires Lawful(c) && |nonce| == NONCE_LEN && Pad(m).Ok? && c.messageKeys(key, nonce) == Some(keys)
    ensures Disassemble(c, key, Assemble(c, keys, nonce, Pad(m).value)) == Ok(m)
  {
    var padded := Pad(m).value;
    var ciphertext := c.keystream(keys.cipher, padded);
    var raw := Assemble(c, keys, nonce, padded);
    LengthsPassGate(|m|);
    assert |padded| == PrefixLen(|m|) + PaddedLen(|m|).value by { PaddedBounds(|m|); }
    assert raw[1..33] == nonce && raw[33..|raw| - MAC_LEN] == ciphertext;
    assert raw[|raw| - MAC_LEN..] == c.authenticate(keys.mac, nonce + ciphertext);
    UnpadPad(m);
  }

  /** Encryption succeeds on 1 to 1 MiB, and decryption with the same key gives the text back. */
  lemma DecryptEncrypt(c: Primitives, key: Bytes, m: Bytes, nonce: Bytes)
    requires Lawful(c) && |nonce| == NONCE_LEN && c.utf8(m)
    ensures Encrypt(c, key, m, nonce).Ok? <==> 0 < |m| <= MAX_PLAINTEXT_LEN && c.messageKeys(key, nonce).Some?
    ensures Encrypt(c, key, m, nonce).Ok? ==>
              var payload := Encrypt(c, key, m, nonce).value;
              |m| <= |payload| && Gate(payload) == None && Decrypt(c, key, payload) == Ok(m)
  {
    if Encrypt(c, key, m, nonce).Ok? {
      var keys := c.messageKeys(key, nonce).value;
      var raw := Assemble(c, keys, nonce, Pad(m).value);
      LengthsPassGate(|m|);
      assert |Pad(m).value| == PrefixLen(|m|) + PaddedLen(|m|).value by { PaddedBounds(|m|); }
      DisassembleAssembled(c, key, keys, nonce, m);
      assert |c.base64(raw)| == (|raw| + 2) / 3 * 4;
    }
  }

  /** What is on the wire: the version, the nonce, the text under the key stream, and the authenticator over both. */
  lemma EncryptLayout(c: Primitives, key: Bytes, m: Bytes, nonce: Bytes)
    requires Lawful(c) && |nonce| == NONCE_LEN && Encrypt(c, key, m, nonce).Ok?
    ensures var raw, keys := c.unbase64(Encrypt(c, key, m, nonce).value), c.messageKeys(key, nonce);
            && raw.Some? && keys.Some? && Pad(m).Ok? && |raw.value| == 65 + |Pad(m).value|
            && raw.value[0] == 2 && raw.value[1..33] == nonce
            && raw.value[33..|raw.value| - 32] == c.keystream(keys.value.cipher, Pad(m).value)
            && raw.value[|raw.value| - 32..] == c.authenticate(keys.value.mac, raw.value[1..|raw.value| - 32])
  {
    var keys, padded := c.messageKeys(key, nonce).value, Pad(m).value;
    var ciphertext := c.keystream(keys.cipher, padded);
    var raw := Assemble(c, keys, nonce, padded);
    assert raw[1..33] == nonce && raw[33..|raw| - 32] == ciphertext && raw[1..|raw| - 32] == nonce + ciphertext;
    assert raw[|raw| - 32..] == c.authenticate(keys.mac, nonce + ciphertext);
  }

  lemma Disassembled(c: Primitives, key: Bytes, raw: Bytes, m: Bytes)
    requires Disassemble(c, key, raw) == Ok(m)
    ensures |raw| >= MIN_DECODED_PAYLOAD_LEN && raw[0] == 2 && c.messageKeys(key, raw[1..33]).Some?
    ensures var keys := c.messageKeys(key, raw[1..33]).value;
            && raw[|raw| - 32..] == c.authenticate(keys.mac, raw[1..|raw| - 32])
            && Unpad(c.keystream(keys.cipher, raw[33..|raw| - 32])) == Ok(m)
  {
    assert raw[1..33] + raw[33..|raw| - 32] == raw[1..|raw| - 32];
  }

  /** Whatever decrypts, made by anyone: its authenticator is right, and it holds the padded text. */
  lemma DecryptedIsAuthentic(c: Primitives, key: Bytes, payload: Bytes, m: Bytes) returns (raw: Bytes, keys: Keys)
    requires Decrypt(c, key, payload) == Ok(m)
    ensures c.unbase64(payload) == Some(raw) && |raw| >= MIN_DECODED_PAYLOAD_LEN && raw[0] == 2
    ensures c.messageKeys(key, raw[1..33]) == Some(keys) && c.utf8(m)
    ensures raw[|raw| - 32..] == c.authenticate(keys.mac, raw[1..|raw| - 32])
    ensures PadsTo(m, c.keystream(keys.cipher, raw[33..|raw| - 32]))
  {
    raw := c.unbase64(payload).value;
    Disassembled(c, key, raw, m);
    keys := c.messageKeys(key, raw[1..33]).value;
    UnpadIff(c.keystream(keys.cipher, raw[33..|raw| - 32]), m);
  }
}
