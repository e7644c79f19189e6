/**
NIP-59 gift wraps: a rumor sealed for its recipient and the seal wrapped again
under a throwaway key. Texts are their UTF-8 bytes. Curve arithmetic, hashing,
hexadecimal and JSON are functions handed in, with their laws in `Lawful`.
*/
module GiftWrap {
  import opened Common
  import Nip44

  const SEAL_KIND := 13
  const GIFT_WRAP_KIND := 1059
  const EPHEMERAL_GIFT_WRAP_KIND := 21059
  const U64_MAX := 0xFFFF_FFFF_FFFF_FFFF

  type Tag = seq<Bytes>

  datatype Unsigned = Unsigned(pubkey: Bytes, createdAt: nat, kind: nat, tags: seq<Tag>, content: Bytes)

  datatype Signed = Signed(id: Bytes, event: Unsigned, sig: Bytes)

  datatype Rumor = Rumor(id: Bytes, event: Unsigned)

  datatype Opened = Opened(seal: Signed, rumor: Rumor)

  datatype Limits = Limits(
    maxSerialized: nat, maxContent: nat, maxTags: nat, maxTagFields: nat, maxTagField: nat, maxFuture: nat)

  datatype Persistence = Persistent | Ephemeral

  datatype Material = Material(
    sealCreatedAt: nat, sealNonce: Bytes, sealAux: Bytes,
    wrapperSecret: Bytes, wrapperCreatedAt: nat, wrapperNonce: Bytes, wrapperAux: Bytes)

  datatype Error =
    | InvalidHex
    | ContentTooLarge
    | TooManyTags
    | TagTooLarge
    | SecretKey
    | PublicKey
    | PublicKeyMismatch
    | Signing
    | Signature
    | IdMismatch
    | SerializedTooLarge
    | TooFarInFuture
    | Json
    | Encryption(cause: Nip44.Nip44Error)
    | RumorIdMismatch
    | AuthorMismatch
    | WrongWrapperKind
    | RecipientMismatch
    | WrongSealKind
    | SealHasTags
    | RumorTooLarge

  datatype Primitives = Primitives(
    nip44: Nip44.Primitives,
    publicKey: Bytes -> Option<Bytes>,
    conversationKey: (Bytes, Bytes) -> Option<Bytes>,
    hex: Bytes -> Bytes,
    unhex: (Bytes, nat) -> Option<Bytes>,
    digest: Unsigned -> Bytes,
    sign: (Bytes, Bytes, Bytes) -> Option<Bytes>,
    keyParses: Bytes -> bool,
    signatureHolds: (Bytes, Bytes, Bytes) -> bool,
    eventJson: Signed -> Bytes,
    parseEvent: Bytes -> Option<Signed>,
    rumorJson: Rumor -> Bytes,
    parseRumor: Bytes -> Option<Rumor>)

  /** Diffie-Hellman is symmetric, signatures verify, and the codecs undo themselves. */
  ghost predicate Lawful(c: Primitives) {
    && Nip44.Lawful(c.nip44)
    && (forall s, t | c.publicKey(s).Some? && c.publicKey(t).Some? ::
          c.conversationKey(s, c.publicKey(t).value) == c.conversationKey(t, c.publicKey(s).value))
    && (forall s | c.publicKey(s).Some? :: |c.publicKey(s).value| == 32 && c.keyParses(c.publicKey(s).value))
    && (forall data :: c.unhex(c.hex(data), |data|) == Some(data))
    && (forall event :: |c.digest(event)| == 32)
    && (forall s, id, aux | c.publicKey(s).Some? && c.sign(s, id, aux).Some? ::
          |c.sign(s, id, aux).value| == 64 && c.signatureHolds(c.publicKey(s).value, id, c.sign(s, id, aux).value))
    && (forall event :: c.parseEvent(c.eventJson(event)) == Some(event) && c.nip44.utf8(c.eventJson(event)))
    && (forall rumor :: c.parseRumor(c.rumorJson(rumor)) == Some(rumor) && c.nip44.utf8(c.rumorJson(rumor)))
    && (forall event :: |c.eventJson(event)| >= |event.event.content|)
  }

  // Events.

  predicate TagFits(tag: Tag, limits: Limits) {
    |tag| <= limits.maxTagFields && forall i | 0 <= i < |tag| :: |tag[i]| <= limits.maxTagField
  }

  function Validate(c: Primitives, e: Unsigned, limits: Limits): Option<Error> {
    if c.unhex(e.pubkey, 32).None? then Some(InvalidHex)
    else if |e.content| > limits.maxContent then Some(ContentTooLarge)
    else if |e.tags| > limits.maxTags then Some(TooManyTags)
    else if exists i | 0 <= i < |e.tags| :: !TagFits(e.tags[i], limits) then Some(TagTooLarge)
    else None
  }

  /** `UnsignedEvent::new(..)?.sign_with_aux(..)?`. */
  function Sign(c: Primitives, e: Unsigned, secret: Bytes, aux: Bytes, limits: Limits): Result<Signed, Error> {
    if Validate(c, e, limits).Some? then Err(Validate(c, e, limits).value)
    else if c.publicKey(secret).None? then Err(SecretKey)
    else if c.unhex(e.pubkey, 32) != Some(c.publicKey(secret).value) then Err(PublicKeyMismatch)
    else match c.sign(secret, c.digest(e), aux)
      case None => Err(Signing)
      case Some(sig) => Ok(Signed(c.hex(c.digest(e)), e, c.hex(sig)))
  }

  function Latest(now: nat, limits: Limits): nat {
    if now + limits.maxFuture > U64_MAX then U64_MAX else now + limits.maxFuture
  }

  function Verify(c: Primitives, s: Signed, now: nat, limits: Limits): Option<Error> {
    var e := s.event;
    if |c.eventJson(s)| > limits.maxSerialized then Some(SerializedTooLarge)
    else if e.createdAt > Latest(now, limits) then Some(TooFarInFuture)
    else if Validate(c, e, limits).Some? then Validate(c, e, limits)
    else if c.unhex(s.id, 32).None? then Some(InvalidHex)
    else if c.digest(e) != c.unhex(s.id, 32).value then Some(IdMismatch)
    else if !c.keyParses(c.unhex(e.pubkey, 32).value) then Some(PublicKey)
    else if c.unhex(s.sig, 64).None? then Some(InvalidHex)
    else if !c.signatureHolds(c.unhex(e.pubkey, 32).value, c.digest(e), c.unhex(s.sig, 64).value) then Some(Signature)
    else None
  }

  function ReadEvent(c: Primitives, json: Bytes, now: nat, limits: Limits): Result<Signed, Error> {
    if |json| > limits.maxSerialized then Err(SerializedTooLarge)
    else match c.parseEvent(json)
      case None => Err(Json)
      case Some(s) => if Verify(c, s, now, limits).Some? then Err(Verify(c, s, now, limits).value) else Ok(s)
  }

  function VerifyRumor(c: Primitives, r: Rumor, limits: Limits): Option<Error> {
    if Validate(c, r.event, limits).Some? then Validate(c, r.event, limits)
    else if c.hex(c.digest(r.event)) != r.id then Some(RumorIdMismatch)
    else None
  }

  // Encryption between two keys.

  function EncryptFor(c: Primitives, secret: Bytes, peer: Bytes, m: Bytes, nonce: Bytes): Result<Bytes, Error> {
    match c.conversationKey(secret, peer)
    case None => Err(Encryption(Nip44.InvalidKey))
    case Some(key) =>
      match Nip44.Encrypt(c.nip44, key, m, nonce)
      case Err(e) => Err(Encryption(e))
      case Ok(payload) => Ok(payload)
  }

  function DecryptFrom(c: Primitives, secret: Bytes, peer: Bytes, payload: Bytes): Result<Bytes, Error> {
    match c.conversationKey(secret, peer)
    case None => Err(Encryption(Nip44.InvalidKey))
    case Some(key) =>
      match Nip44.Decrypt(c.nip44, key, payload)
      case Err(e) => Err(Encryption(e))
      case Ok(m) => Ok(m)
  }

  // Wrapping.

  function KindOf(p: Persistence): nat { if p.Persistent? then GIFT_WRAP_KIND else EPHEMERAL_GIFT_WRAP_KIND }

  const P_FIELD: Bytes := [112]

  function MakeSeal(c: Primitives, rumor: Rumor, sender: Bytes, recipient: Bytes, m: Material, limits: Limits)
    : Result<Signed, Error>
  {
    match EncryptFor(c, sender, recipient, c.rumorJson(rumor), m.sealNonce)
    case Err(e) => Err(e)
    case Ok(content) =>
      Sign(c, Unsigned(rumor.event.pubkey, m.sealCreatedAt, SEAL_KIND, [], content), sender, m.sealAux, limits)
  }

  function MakeWrap(c: Primitives, seal: Signed, recipient: Bytes, p: Persistence, m: Material, limits: Limits)
    : Result<Signed, Error>
  {
    match c.publicKey(m.wrapperSecret)
    case None => Err(SecretKey)
    case Some(wrapper) =>
      match EncryptFor(c, m.wrapperSecret, recipient, c.eventJson(seal), m.wrapperNonce)
      case Err(e) => Err(e)
      case Ok(content) =>
        var event := Unsigned(c.hex(wrapper), m.wrapperCreatedAt, KindOf(p), [[P_FIELD, c.hex(recipient)]], content);
        Sign(c, event, m.wrapperSecret, m.wrapperAux, limits)
  }

  function Create(c: Primitives, rumor: Rumor, sender: Bytes, recipient: Bytes, p: Persistence, m: Material,
                  limits: Limits): Result<Signed, Error>
  {
    if VerifyRumor(c, rumor, limits).Some? then Err(VerifyRumor(c, rumor, limits).value)
    else if c.publicKey(sender).None? then Err(SecretKey)
    else if rumor.event.pubkey != c.hex(c.publicKey(sender).value) then Err(AuthorMismatch)
    else match MakeSeal(c, rumor, sender, recipient, m, limits)
      case Err(e) => Err(e)
      case Ok(seal) => MakeWrap(c, seal, recipient, p, m, limits)
  }

  /** The tags whose first field is `p`. */
  function Addressed(tags: seq<Tag>): seq<Tag> {
    if tags == [] then []
    else (if tags[0] != [] && tags[0][0] == P_FIELD then [tags[0]] else []) + Addressed(tags[1..])
  }

  function OpenWrap(c: Primitives, wrap: Signed, secret: Bytes, now: nat, limits: Limits): Result<Signed, Error> {
    if Verify(c, wrap, now, limits).Some? then Err(Verify(c, wrap, now, limits).value)
    else if wrap.event.kind != GIFT_WRAP_KIND && wrap.event.kind != EPHEMERAL_GIFT_WRAP_KIND then Err(WrongWrapperKind)
    else if c.publicKey(secret).None? then Err(SecretKey)
    else
      var to := Addressed(wrap.event.tags);
      if |to| != 1 || |to[0]| < 2 || to[0][1] != c.hex(c.publicKey(secret).value) then Err(RecipientMismatch)
      else match c.unhex(wrap.event.pubkey, 32)
        case None => Err(InvalidHex)
        case Some(wrapper) =>
          match DecryptFrom(c, secret, wrapper, wrap.event.content)
          case Err(e) => Err(e)
          case Ok(json) => ReadEvent(c, json, now, limits)
  }

  function OpenSeal(c: Primitives, seal: Signed, secret: Bytes, limits: Limits): Result<Rumor, Error> {
    if seal.event.kind != SEAL_KIND then Err(WrongSealKind)
    else if seal.event.tags != [] then Err(SealHasTags)
    else match c.unhex(seal.event.pubkey, 32)
      case None => Err(InvalidHex)
      case Some(author) =>
        match DecryptFrom(c, secret, author, seal.event.content)
        case Err(e) => Err(e)
        case Ok(json) =>
          if |json| > limits.maxSerialized then Err(RumorTooLarge)
          else match c.parseRumor(json)
            case None => Err(Json)
            case Some(rumor) =>
              if VerifyRumor(c, rumor, limits).Some? then Err(VerifyRumor(c, rumor, limits).value)
              else if rumor.event.pubkey != seal.event.pubkey then Err(AuthorMismatch)
              else Ok(rumor)
  }

  function Open(c: Primitives, wrap: Signed, secret: Bytes, now: nat, limits: Limits): Result<Opened, Error> {
    match OpenWrap(c, wrap, secret, now, limits)
    case Err(e) => Err(e)
    case Ok(seal) =>
      match OpenSeal(c, seal, secret, limits)
      case Err(e) => Err(e)
      case Ok(rumor) => Ok(Opened(seal, rumor))
  }

  // The round trip.

  /** What one side encrypts the other decrypts, and the payload is never shorter than the text. */
  lemma DecryptPeer(c: Primitives, secret: Bytes, peer: Bytes, m: Bytes, nonce: Bytes)
    requires Lawful(c) && |nonce| == Nip44.NONCE_LEN && c.nip44.utf8(m)
    requires c.publicKey(secret).Some? && c.publicKey(peer).Some?
    requires EncryptFor(c, secret, c.publicKey(peer).value, m, nonce).Ok?
    ensures var payload := EncryptFor(c, secret, c.publicKey(peer).value, m, nonce).value;
            |m| <= |payload| && DecryptFrom(c, peer, c.publicKey(secret).value, payload) == Ok(m)
  {
    var key := c.conversationKey(secret, c.publicKey(peer).value).value;
    Nip44.DecryptEncrypt(c.nip44, key, m, nonce);
  }

  /** What the laws say of one signature and its texts. */
  lemma SignatureLaws(c: Primitives, e: Unsigned, secret: Bytes, aux: Bytes)
    requires Lawful(c) && c.publicKey(secret).Some? && c.sign(secret, c.digest(e), aux).Some?
    ensures var sig := c.sign(secret, c.digest(e), aux).value;
            && c.unhex(c.hex(c.digest(e)), 32) == Some(c.digest(e)) && c.unhex(c.hex(sig), 64) == Some(sig)
            && c.keyParses(c.publicKey(secret).value) && c.signatureHolds(c.publicKey(secret).value, c.digest(e), sig)
  {
    var id, sig := c.digest(e), c.sign(secret, c.digest(e), aux).value;
    assert c.unhex(c.hex(id), |id|) == Some(id);
    assert c.unhex(c.hex(sig), |sig|) == Some(sig);
  }

  predicate Acceptable(c: Primitives, s: Signed, now: nat, limits: Limits) {
    |c.eventJson(s)| <= limits.maxSerialized && s.event.createdAt <= Latest(now, limits)
  }

  /** A signed event verifies exactly when it is small and early enough. */
  lemma SignedVerifies(c: Primitives, e: Unsigned, secret: Bytes, aux: Bytes, s: Signed, now: nat, limits: Limits)
    requires Lawful(c) && Sign(c, e, secret, aux, limits) == Ok(s)
    ensures s.event == e && c.publicKey(secret).Some? && c.unhex(e.pubkey, 32) == c.publicKey(secret)
    ensures Verify(c, s, now, limits).None? <==> Acceptable(c, s, now, limits)
  {
    SignatureLaws(c, e, secret, aux);
    VerifySigned(c, s, c.publicKey(secret).value, c.sign(secret, c.digest(e), aux).value, now, limits);
  }

  lemma VerifySigned(c: Primitives, s: Signed, key: Bytes, sig: Bytes, now: nat, limits: Limits)
    requires Validate(c, s.event, limits).None? && c.unhex(s.event.pubkey, 32) == Some(key)
    requires c.unhex(s.id, 32) == Some(c.digest(s.event)) && c.unhex(s.sig, 64) == Some(sig)
    requires c.keyParses(key) && c.signatureHolds(key, c.digest(s.event), sig)
    ensures Verify(c, s, now, limits).None? <==> Acceptable(c, s, now, limits)
  {
  }

  /** Reading back one's own event is verifying it. */
  lemma ReadsBack(c: Primitives, s: Signed, now: nat, limits: Limits)
    requires c.parseEvent(c.eventJson(s)) == Some(s)
    ensures ReadEvent(c, c.eventJson(s), now, limits) ==
            if Verify(c, s, now, limits).Some? then Err(Verify(c, s, now, limits).value) else Ok(s)
  {
  }

  lemma OneAddressee(to: Bytes)
    ensures Addressed([[P_FIELD, to]]) == [[P_FIELD, to]]
  {
    assert [[P_FIELD, to]][1..] == [];
  }

  /** A wrap addressed to the reader is verified, decrypted and read, in that order. */
  lemma OpensAddressed(c: Primitives, wrap: Signed, secret: Bytes, wrapper: Bytes, json: Bytes, now: nat, limits: Limits)
    requires wrap.event.kind == GIFT_WRAP_KIND || wrap.event.kind == EPHEMERAL_GIFT_WRAP_KIND
    requires c.publicKey(secret).Some? && wrap.event.tags == [[P_FIELD, c.hex(c.publicKey(secret).value)]]
    requires c.unhex(wrap.event.pubkey, 32) == Some(wrapper)
    requires DecryptFrom(c, secret, wrapper, wrap.event.content) == Ok(json)
    ensures OpenWrap(c, wrap, secret, now, limits) ==
            if Verify(c, wrap, now, limits).Some? then Err(Verify(c, wrap, now, limits).value)
            else ReadEvent(c, json, now, limits)
  {
    OneAddressee(c.hex(c.publicKey(secret).value));
  }

  /** What a made wrap consists of. */
  lemma MadeWrap(c: Primitives, seal: Signed, recipient: Bytes, p: Persistence, m: Material, limits: Limits, wrap: Signed)
    requires MakeWrap(c, seal, recipient, p, m, limits) == Ok(wrap)
    ensures c.publicKey(m.wrapperSecret).Some? && Sign(c, wrap.event, m.wrapperSecret, m.wrapperAux, limits) == Ok(wrap)
    ensures wrap.event.kind == KindOf(p) && wrap.event.tags == [[P_FIELD, c.hex(recipient)]]
    ensures wrap.event.createdAt == m.wrapperCreatedAt
    ensures EncryptFor(c, m.wrapperSecret, recipient, c.eventJson(seal), m.wrapperNonce) == Ok(wrap.event.content)
  {
  }

  /** The seal comes out of the wrap exactly when both are small and early enough. */
  lemma WrapOpens(c: Primitives, seal: Signed, secret: Bytes, p: Persistence, m: Material, wrap: Signed,
                  now: nat, limits: Limits)
    requires Lawful(c) && c.publicKey(secret).Some? && |m.wrapperNonce| == Nip44.NONCE_LEN
    requires MakeWrap(c, seal, c.publicKey(secret).value, p, m, limits) == Ok(wrap)
    ensures OpenWrap(c, wrap, secret, now, limits).Ok? <==>
            Acceptable(c, wrap, now, limits) && Verify(c, seal, now, limits).None?
    ensures OpenWrap(c, wrap, secret, now, limits).Ok? ==> OpenWrap(c, wrap, secret, now, limits) == Ok(seal)
  {
    var recipient := c.publicKey(secret).value;
    MadeWrap(c, seal, recipient, p, m, limits, wrap);
    DecryptPeer(c, m.wrapperSecret, secret, c.eventJson(seal), m.wrapperNonce);
    SignedVerifies(c, wrap.event, m.wrapperSecret, m.wrapperAux, wrap, now, limits);
    OpensAddressed(c, wrap, secret, c.publicKey(m.wrapperSecret).value, c.eventJson(seal), now, limits);
    ReadsBack(c, seal, now, limits);
  }

  /** The inner size check follows from the outer one. */
  lemma WrapHoldsSeal(c: Primitives, seal: Signed, secret: Bytes, p: Persistence, m: Material, wrap: Signed, limits: Limits)
    requires Lawful(c) && c.publicKey(secret).Some? && |m.wrapperNonce| == Nip44.NONCE_LEN
    requires MakeWrap(c, seal, c.publicKey(secret).value, p, m, limits) == Ok(wrap)
    ensures |c.eventJson(seal)| <= |c.eventJson(wrap)| && wrap.event.createdAt == m.wrapperCreatedAt
  {
    MadeWrap(c, seal, c.publicKey(secret).value, p, m, limits, wrap);
    DecryptPeer(c, m.wrapperSecret, secret, c.eventJson(seal), m.wrapperNonce);
  }

  lemma MadeSeal(c: Primitives, rumor: Rumor, sender: Bytes, recipient: Bytes, m: Material, limits: Limits, seal: Signed)
    requires MakeSeal(c, rumor, sender, recipient, m, limits) == Ok(seal)
    ensures Sign(c, seal.event, sender, m.sealAux, limits) == Ok(seal) && seal.event.createdAt == m.sealCreatedAt
    ensures seal.event.kind == SEAL_KIND && seal.event.tags == [] && seal.event.pubkey == rumor.event.pubkey
    ensures EncryptFor(c, sender, recipient, c.rumorJson(rumor), m.sealNonce) == Ok(seal.event.content)
  {
  }

  lemma OpensSealed(c: Primitives, seal: Signed, secret: Bytes, author: Bytes, rumor: Rumor, limits: Limits)
    requires seal.event.kind == SEAL_KIND && seal.event.tags == []
    requires c.unhex(seal.event.pubkey, 32) == Some(author)
    requires DecryptFrom(c, secret, author, seal.event.content) == Ok(c.rumorJson(rumor))
    requires |c.rumorJson(rumor)| <= limits.maxSerialized && c.parseRumor(c.rumorJson(rumor)) == Some(rumor)
    requires VerifyRumor(c, rumor, limits).None? && rumor.event.pubkey == seal.event.pubkey
    ensures OpenSeal(c, seal, secret, limits) == Ok(rumor)
  {
  }

  lemma SealOpens(c: Primitives, rumor: Rumor, sender: Bytes, secret: Bytes, m: Material, seal: Signed, limits: Limits)
    requires Lawful(c) && c.publicKey(secret).Some? && |m.sealNonce| == Nip44.NONCE_LEN
    requires VerifyRumor(c, rumor, limits).None? && |c.eventJson(seal)| <= limits.maxSerialized
    requires MakeSeal(c, rumor, sender, c.publicKey(secret).value, m, limits) == Ok(seal)
    ensures OpenSeal(c, seal, secret, limits) == Ok(rumor)
  {
    MadeSeal(c, rumor, sender, c.publicKey(secret).value, m, limits, seal);
    SignedVerifies(c, seal.event, sender, m.sealAux, seal, 0, limits);
    DecryptPeer(c, sender, secret, c.rumorJson(rumor), m.sealNonce);
    assert |c.eventJson(seal)| >= |seal.event.content|;
    OpensSealed(c, seal, secret, c.publicKey(sender).value, rumor, limits);
  }

  predicate Timely(m: Material, now: nat, limits: Limits) {
    m.sealCreatedAt <= Latest(now, limits) && m.wrapperCreatedAt <= Latest(now, limits)
  }

  lemma Created(c: Primitives, rumor: Rumor, sender: Bytes, recipient: Bytes, p: Persistence, m: Material,
                limits: Limits, wrap: Signed) returns (seal: Signed)
    requires Create(c, rumor, sender, recipient, p, m, limits) == Ok(wrap)
    ensures VerifyRumor(c, rumor, limits).None? && MakeSeal(c, rumor, sender, recipient, m, limits) == Ok(seal)
    ensures MakeWrap(c, seal, recipient, p, m, limits) == Ok(wrap)
  {
    seal := MakeSeal(c, rumor, sender, recipient, m, limits).value;
  }

  lemma SealVerifies(c: Primitives, rumor: Rumor, sender: Bytes, recipient: Bytes, m: Material, seal: Signed,
                     now: nat, limits: Limits)
    requires Lawful(c) && MakeSeal(c, rumor, sender, recipient, m, limits) == Ok(seal)
    ensures Verify(c, seal, now, limits).None? <==>
            |c.eventJson(seal)| <= limits.maxSerialized && m.sealCreatedAt <= Latest(now, limits)
  {
    MadeSeal(c, rumor, sender, recipient, m, limits, seal);
    SignedVerifies(c, seal.event, sender, m.sealAux, seal, now, limits);
  }

  lemma SealWithinWrap(c: Primitives, rumor: Rumor, sender: Bytes, secret: Bytes, p: Persistence, m: Material,
                       wrap: Signed, seal: Signed, now: nat, limits: Limits)
    requires Lawful(c) && c.publicKey(secret).Some? && |m.wrapperNonce| == Nip44.NONCE_LEN
    requires MakeSeal(c, rumor, sender, c.publicKey(secret).value, m, limits) == Ok(seal)
    requires MakeWrap(c, seal, c.publicKey(secret).value, p, m, limits) == Ok(wrap)
    ensures Acceptable(c, wrap, now, limits) && Verify(c, seal, now, limits).None? <==>
            |c.eventJson(wrap)| <= limits.maxSerialized && Timely(m, now, limits)
  {
    WrapHoldsSeal(c, seal, secret, p, m, wrap, limits);
    SealVerifies(c, rumor, sender, c.publicKey(secret).value, m, seal, now, limits);
  }

  /**
  A created gift wrap opens with the recipient's key exactly when the outer event fits
  and neither timestamp is too far ahead; then it holds the identical rumor.
  */
  lemma OpenCreated(c: Primitives, rumor: Rumor, sender: Bytes, secret: Bytes, p: Persistence, m: Material,
                    wrap: Signed, now: nat, limits: Limits)
    requires Lawful(c) && c.publicKey(secret).Some?
    requires |m.sealNonce| == Nip44.NONCE_LEN && |m.wrapperNonce| == Nip44.NONCE_LEN
    requires Create(c, rumor, sender, c.publicKey(secret).value, p, m, limits) == Ok(wrap)
    ensures Open(c, wrap, secret, now, limits).Ok? <==>
            |c.eventJson(wrap)| <= limits.maxSerialized && Timely(m, now, limits)
    ensures Open(c, wrap, secret, now, limits).Ok? ==> Open(c, wrap, secret, now, limits).value.rumor == rumor
  {
    var recipient := c.publicKey(secret).value;
    var seal := Created(c, rumor, sender, recipient, p, m, limits, wrap);
    WrapOpens(c, seal, secret, p, m, wrap, now, limits);
    SealWithinWrap(c, rumor, sender, secret, p, m, wrap, seal, now, limits);
    if |c.eventJson(wrap)| <= limits.maxSerialized {
      WrapHoldsSeal(c, seal, secret, p, m, wrap, limits);
      SealOpens(c, rumor, sender, secret, m, seal, limits);
    }
  }

  /** When serializing adds no more to the content than the limits leave room for, only the times count. */
  lemma OpenCreatedInTime(c: Primitives, rumor: Rumor, sender: Bytes, secret: Bytes, p: Persistence, m: Material,
                          wrap: Signed, now: nat, limits: Limits)
    requires Lawful(c) && c.publicKey(secret).Some?
    requires |m.sealNonce| == Nip44.NONCE_LEN && |m.wrapperNonce| == Nip44.NONCE_LEN
    requires Create(c, rumor, sender, c.publicKey(secret).value, p, m, limits) == Ok(wrap)
    requires |c.eventJson(wrap)| - |wrap.event.content| <= limits.maxSerialized - limits.maxContent
    ensures Open(c, wrap, secret, now, limits).Ok? <==> Timely(m, now, limits)
  {
    CreatedContent(c, rumor, sender, c.publicKey(secret).value, p, m, limits, wrap);
    OpenCreated(c, rumor, sender, secret, p, m, wrap, now, limits);
  }

  lemma CreatedContent(c: Primitives, rumor: Rumor, sender: Bytes, recipient: Bytes, p: Persistence, m: Material,
                       limits: Limits, wrap: Signed)
    requires Create(c, rumor, sender, recipient, p, m, limits) == Ok(wrap)
    ensures |wrap.event.content| <= limits.maxContent
  {
  }

  /** What a created wrap shows to everyone: its kind, its one recipient, its time and its one-time author. */
  lemma CreatedShape(c: Primitives, rumor: Rumor, sender: Bytes, recipient: Bytes, p: Persistence, m: Material,
                     limits: Limits, wrap: Signed)
    requires Create(c, rumor, sender, recipient, p, m, limits) == Ok(wrap)
    ensures wrap.event.kind == (if p.Persistent? then 1059 else 21059)
    ensures wrap.event.tags == [[P_FIELD, c.hex(recipient)]] && P_FIELD == [112]
    ensures wrap.event.createdAt == m.wrapperCreatedAt
    ensures c.publicKey(m.wrapperSecret).Some? && wrap.event.pubkey == c.hex(c.publicKey(m.wrapperSecret).value)
  {
  }

  /** And what its seal shows to the recipient: kind 13, no tags, the sender. */
  lemma SealShape(c: Primitives, rumor: Rumor, sender: Bytes, recipient: Bytes, m: Material, limits: Limits, seal: Signed)
    requires MakeSeal(c, rumor, sender, recipient, m, limits) == Ok(seal)
    ensures seal.event.kind == 13 && seal.event.tags == [] && seal.event.pubkey == rumor.event.pubkey
    ensures seal.event.createdAt == m.sealCreatedAt
    ensures EncryptFor(c, sender, recipient, c.rumorJson(rumor), m.sealNonce) == Ok(seal.event.content)
  {
  }

  /**
  Whatever opens, made by anyone: the author named in the rumor signed the seal that
  carries it, and the rumor's id is the digest of its fields.
  */
  lemma OpenedIsAuthentic(c: Primitives, wrap: Signed, secret: Bytes, now: nat, limits: Limits)
    requires Open(c, wrap, secret, now, limits).Ok?
    ensures var o := Open(c, wrap, secret, now, limits).value;
            var author := c.unhex(o.rumor.event.pubkey, 32);
            && author.Some? && c.unhex(o.seal.sig, 64).Some?
            && c.signatureHolds(author.value, c.digest(o.seal.event), c.unhex(o.seal.sig, 64).value)
            && DecryptFrom(c, secret, author.value, o.seal.event.content).Ok?
            && c.parseRumor(DecryptFrom(c, secret, author.value, o.seal.event.content).value) == Some(o.rumor)
            && o.rumor.id == c.hex(c.digest(o.rumor.event))
            && o.seal.event.createdAt <= Latest(now, limits) && wrap.event.createdAt <= Latest(now, limits)
  {
    var seal := OpenWrap(c, wrap, secret, now, limits).value;
    OpenedWrapVerifies(c, wrap, secret, now, limits, seal);
    OpenedSealMatches(c, seal, secret, limits, OpenSeal(c, seal, secret, limits).value);
  }

  lemma OpenedWrapVerifies(c: Primitives, wrap: Signed, secret: Bytes, now: nat, limits: Limits, seal: Signed)
    requires OpenWrap(c, wrap, secret, now, limits) == Ok(seal)
    ensures Verify(c, wrap, now, limits).None? && Verify(c, seal, now, limits).None?
  {
    var wrapper := c.unhex(wrap.event.pubkey, 32).value;
    var json := DecryptFrom(c, secret, wrapper, wrap.event.content).value;
    assert OpenWrap(c, wrap, secret, now, limits) == ReadEvent(c, json, now, limits);
  }

  lemma OpenedSealMatches(c: Primitives, seal: Signed, secret: Bytes, limits: Limits, rumor: Rumor)
    requires OpenSeal(c, seal, secret, limits) == Ok(rumor)
    ensures rumor.event.pubkey == seal.event.pubkey && c.unhex(seal.event.pubkey, 32).Some?
    ensures rumor.id == c.hex(c.digest(rumor.event))
    ensures var author := c.unhex(seal.event.pubkey, 32).value;
            && DecryptFrom(c, secret, author, seal.event.content).Ok?
            && c.parseRumor(DecryptFrom(c, secret, author, seal.event.content).value) == Some(rumor)
  {
  }

  // When anything opens.

  /** Within the limits, not too far ahead, named by its own digest and signed by its author. */
  predicate Genuine(c: Primitives, s: Signed, now: nat, limits: Limits) {
    && |c.eventJson(s)| <= limits.maxSerialized
    && s.event.createdAt <= now + limits.maxFuture && s.event.createdAt <= U64_MAX
    && Bounded(c, s.event, limits)
    && c.unhex(s.id, 32) == Some(c.digest(s.event))
    && c.unhex(s.event.pubkey, 32).Some? && c.keyParses(c.unhex(s.event.pubkey, 32).value) && c.unhex(s.sig, 64).Some?
    && c.signatureHolds(c.unhex(s.event.pubkey, 32).value, c.digest(s.event), c.unhex(s.sig, 64).value)
  }

  predicate Bounded(c: Primitives, e: Unsigned, limits: Limits) {
    && c.unhex(e.pubkey, 32).Some? && |e.content| <= limits.maxContent && |e.tags| <= limits.maxTags
    && (forall i | 0 <= i < |e.tags| :: |e.tags[i]| <= limits.maxTagFields)
    && (forall i, j | 0 <= i < |e.tags| && 0 <= j < |e.tags[i]| :: |e.tags[i][j]| <= limits.maxTagField)
  }

  lemma ValidIff(c: Primitives, e: Unsigned, limits: Limits)
    ensures Validate(c, e, limits).None? <==> Bounded(c, e, limits)
  {
    if Bounded(c, e, limits) {
      forall i | 0 <= i < |e.tags| ensures TagFits(e.tags[i], limits) {
      }
    }
  }

  lemma VerifiedIff(c: Primitives, s: Signed, now: nat, limits: Limits)
    ensures Verify(c, s, now, limits).None? <==> Genuine(c, s, now, limits)
  {
    ValidIff(c, s.event, limits);
  }

  predicate Names(tag: Tag) { tag != [] && tag[0] == [112] }

  /** Exactly one tag names anyone, and it names `to`. */
  predicate SoleAddressee(tags: seq<Tag>, to: Bytes) {
    exists i | 0 <= i < |tags| ::
      && Names(tags[i]) && |tags[i]| >= 2 && tags[i][1] == to
      && forall j | 0 <= j < |tags| && Names(tags[j]) :: j == i
  }

  lemma {:induction false} NobodyNamed(tags: seq<Tag>)
    ensures Addressed(tags) == [] <==> forall j | 0 <= j < |tags| :: !Names(tags[j])
    decreases |tags|
  {
    if tags != [] {
      NobodyNamed(tags[1..]);
      assert forall j | 0 < j < |tags| :: tags[j] == tags[1..][j - 1];
    }
  }

  predicate NamesOnce(tags: seq<Tag>, to: Bytes) {
    var named := Addressed(tags);
    |named| == 1 && |named[0]| >= 2 && named[0][1] == to
  }

  lemma {:induction false} SoleIff(tags: seq<Tag>, to: Bytes)
    ensures NamesOnce(tags, to) <==> SoleAddressee(tags, to)
    decreases |tags|
  {
    if tags != [] {
      var rest := tags[1..];
      assert forall j | 0 < j < |tags| :: tags[j] == rest[j - 1];
      assert forall j | 0 <= j < |rest| :: rest[j] == tags[j + 1];
      if Names(tags[0]) {
        NobodyNamed(rest);
        assert Addressed(tags) == [tags[0]] + Addressed(rest);
        if NamesOnce(tags, to) { assert Addressed(rest) == []; }
        if SoleAddressee(tags, to) { assert forall j | 0 <= j < |rest| :: !Names(rest[j]); }
      } else {
        SoleIff(rest, to);
        SoleShifts(tags, to);
      }
    }
  }

  lemma SoleShifts(tags: seq<Tag>, to: Bytes)
    requires tags != [] && !Names(tags[0])
    ensures SoleAddressee(tags, to) <==> SoleAddressee(tags[1..], to)
  {
    var rest := tags[1..];
    if SoleAddressee(tags, to) {
      var i :| 0 <= i < |tags| && Names(tags[i]) && |tags[i]| >= 2 && tags[i][1] == to
               && forall j | 0 <= j < |tags| && Names(tags[j]) :: j == i;
      assert rest[i - 1] == tags[i];
      assert forall j | 0 <= j < |rest| && Names(rest[j]) :: rest[j] == tags[j + 1];
    }
    if SoleAddressee(rest, to) {
      var i :| 0 <= i < |rest| && Names(rest[i]) && |rest[i]| >= 2 && rest[i][1] == to
               && forall j | 0 <= j < |rest| && Names(rest[j]) :: j == i;
      assert tags[i + 1] == rest[i];
      assert forall j | 0 < j < |tags| && Names(tags[j]) :: tags[j] == rest[j - 1];
    }
  }

  /** The wrap is genuine, of a wrapping kind, for this reader alone, and hides `seal`, which is genuine too. */
  predicate Hides(c: Primitives, wrap: Signed, secret: Bytes, now: nat, limits: Limits, seal: Signed) {
    && Genuine(c, wrap, now, limits) && (wrap.event.kind == 1059 || wrap.event.kind == 21059)
    && c.publicKey(secret).Some? && SoleAddressee(wrap.event.tags, c.hex(c.publicKey(secret).value))
    && c.unhex(wrap.event.pubkey, 32).Some?
    && var json := DecryptFrom(c, secret, c.unhex(wrap.event.pubkey, 32).value, wrap.event.content);
       && json.Ok? && |json.value| <= limits.maxSerialized && c.parseEvent(json.value) == Some(seal)
       && Genuine(c, seal, now, limits)
  }

  /** The seal is of its kind, without tags, and carries `rumor`, within the limits, of the same author. */
  predicate Carries(c: Primitives, seal: Signed, secret: Bytes, limits: Limits, rumor: Rumor) {
    && seal.event.kind == 13 && seal.event.tags == [] && c.unhex(seal.event.pubkey, 32).Some?
    && var json := DecryptFrom(c, secret, c.unhex(seal.event.pubkey, 32).value, seal.event.content);
       && json.Ok? && |json.value| <= limits.maxSerialized && c.parseRumor(json.value) == Some(rumor)
       && Bounded(c, rumor.event, limits) && rumor.id == c.hex(c.digest(rumor.event))
       && rumor.event.pubkey == seal.event.pubkey
  }

  lemma WrapOpensIff(c: Primitives, wrap: Signed, secret: Bytes, now: nat, limits: Limits, seal: Signed)
    ensures OpenWrap(c, wrap, secret, now, limits) == Ok(seal) <==> Hides(c, wrap, secret, now, limits, seal)
  {
    VerifiedIff(c, wrap, now, limits);
    VerifiedIff(c, seal, now, limits);
    if c.publicKey(secret).Some? { SoleIff(wrap.event.tags, c.hex(c.publicKey(secret).value)); }
  }

  lemma SealOpensIff(c: Primitives, seal: Signed, secret: Bytes, limits: Limits, rumor: Rumor)
    ensures OpenSeal(c, seal, secret, limits) == Ok(rumor) <==> Carries(c, seal, secret, limits, rumor)
  {
    ValidIff(c, rumor.event, limits);
  }

  /** Whatever was made by whomever, it opens to this seal and this rumor exactly then. */
  lemma OpensIff(c: Primitives, wrap: Signed, secret: Bytes, now: nat, limits: Limits, seal: Signed, rumor: Rumor)
    ensures Open(c, wrap, secret, now, limits) == Ok(Opened(seal, rumor)) <==>
            Hides(c, wrap, secret, now, limits, seal) && Carries(c, seal, secret, limits, rumor)
  {
    WrapOpensIff(c, wrap, secret, now, limits, seal);
    SealOpensIff(c, seal, secret, limits, rumor);
  }

  /** Only a rumor within the limits, named by its digest and written by the sender, is wrapped; any other is refused as what it is. */
  lemma CreatesOnlyOwn(c: Primitives, rumor: Rumor, sender: Bytes, recipient: Bytes, p: Persistence, m: Material, limits: Limits)
    ensures var r := Create(c, rumor, sender, recipient, p, m, limits);
            && (r.Ok? ==>
                  && Bounded(c, rumor.event, limits) && rumor.id == c.hex(c.digest(rumor.event))
                  && c.publicKey(sender).Some? && rumor.event.pubkey == c.hex(c.publicKey(sender).value))
            && (r == Err(AuthorMismatch) <==>
                  && Bounded(c, rumor.event, limits) && rumor.id == c.hex(c.digest(rumor.event))
                  && c.publicKey(sender).Some? && rumor.event.pubkey != c.hex(c.publicKey(sender).value))
            && (r == Err(RumorIdMismatch) <==>
                  Bounded(c, rumor.event, limits) && rumor.id != c.hex(c.digest(rumor.event)))
  {
    ValidIff(c, rumor.event, limits);
    var key := c.publicKey(sender);
    var seal := MakeSeal(c, rumor, sender, recipient, m, limits);
    SealErrors(c, rumor, sender, recipient, m, limits);
    if seal.Ok? { WrapErrors(c, seal.value, recipient, p, m, limits); }
  }

  lemma SealErrors(c: Primitives, rumor: Rumor, sender: Bytes, recipient: Bytes, m: Material, limits: Limits)
    ensures MakeSeal(c, rumor, sender, recipient, m, limits) != Err(AuthorMismatch)
    ensures MakeSeal(c, rumor, sender, recipient, m, limits) != Err(RumorIdMismatch)
  {
  }

  lemma WrapErrors(c: Primitives, seal: Signed, recipient: Bytes, p: Persistence, m: Material, limits: Limits)
    ensures MakeWrap(c, seal, recipient, p, m, limits) != Err(AuthorMismatch)
    ensures MakeWrap(c, seal, recipient, p, m, limits) != Err(RumorIdMismatch)
  {
  }
}
