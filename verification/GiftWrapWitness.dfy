/**
The laws assumed of cryptography and codecs can hold together: a toy instance keeps all of
them. In it, gift wraps that were created and do not open.
*/
module GiftWrapWitness {
  import opened Common
  import opened GiftWrap
  import Nip44

  function Repeat(n: nat, b: byte): (r: Bytes)
    ensures |r| == n && forall i | 0 <= i < n :: r[i] == b
  {
    seq(n, _ => b)
  }

  // A code for events in which no code word begins another.

  function NatCode(n: nat): Bytes { Repeat(n, 1) + [0] }

  lemma NatCodeUnique(m: nat, n: nat, x: Bytes, y: Bytes)
    requires NatCode(m) + x == NatCode(n) + y
    ensures m == n && x == y
  {
    var s := NatCode(m) + x;
    assert (forall i | 0 <= i < m :: s[i] == 1) && (forall i | 0 <= i < n :: s[i] == 1);
    assert s[m] == 0 && s[n] == 0;
    assert x == s[m + 1..] && y == s[n + 1..];
  }

  function BytesCode(b: Bytes): Bytes { NatCode(|b|) + b }

  lemma BytesCodeUnique(a: Bytes, b: Bytes, x: Bytes, y: Bytes)
    requires BytesCode(a) + x == BytesCode(b) + y
    ensures a == b && x == y
  {
    assert NatCode(|a|) + (a + x) == BytesCode(a) + x && NatCode(|b|) + (b + y) == BytesCode(b) + y;
    NatCodeUnique(|a|, |b|, a + x, b + y);
    assert a == (a + x)[..|a|] && x == (a + x)[|a|..];
    assert b == (b + y)[..|b|] && y == (b + y)[|b|..];
  }

  lemma Prefixed(k: byte, a: Bytes, b: Bytes, x: Bytes)
    ensures ([k] + a + b + x)[0] == k && ([k] + a + b + x)[1..] == a + (b + x)
  {
  }

  function ListCode(items: seq<Bytes>): Bytes {
    if items == [] then [0] else [1] + BytesCode(items[0]) + ListCode(items[1..])
  }

  lemma ListCodePeels(items: seq<Bytes>, x: Bytes)
    ensures var s := ListCode(items) + x;
            && s != [] && s[0] == (if items == [] then 0 else 1)
            && s[1..] == if items == [] then x else BytesCode(items[0]) + (ListCode(items[1..]) + x)
  {
    if items != [] { Prefixed(1, BytesCode(items[0]), ListCode(items[1..]), x); }
  }

  lemma {:induction false} ListCodeUnique(a: seq<Bytes>, b: seq<Bytes>, x: Bytes, y: Bytes)
    requires ListCode(a) + x == ListCode(b) + y
    ensures a == b && x == y
    decreases |a|
  {
    ListCodePeels(a, x);
    ListCodePeels(b, y);
    if a != [] {
      BytesCodeUnique(a[0], b[0], ListCode(a[1..]) + x, ListCode(b[1..]) + y);
      ListCodeUnique(a[1..], b[1..], x, y);
      assert a == [a[0]] + a[1..] && b == [b[0]] + b[1..];
    }
  }

  function TagsCode(tags: seq<Tag>): Bytes {
    if tags == [] then [0] else [1] + ListCode(tags[0]) + TagsCode(tags[1..])
  }

  lemma TagsCodePeels(items: seq<Tag>, x: Bytes)
    ensures var s := TagsCode(items) + x;
            && s != [] && s[0] == (if items == [] then 0 else 1)
            && s[1..] == if items == [] then x else ListCode(items[0]) + (TagsCode(items[1..]) + x)
  {
    if items != [] { Prefixed(1, ListCode(items[0]), TagsCode(items[1..]), x); }
  }

  lemma {:induction false} TagsCodeUnique(a: seq<Tag>, b: seq<Tag>, x: Bytes, y: Bytes)
    requires TagsCode(a) + x == TagsCode(b) + y
    ensures a == b && x == y
    decreases |a|
  {
    TagsCodePeels(a, x);
    TagsCodePeels(b, y);
    if a != [] {
      ListCodeUnique(a[0], b[0], TagsCode(a[1..]) + x, TagsCode(b[1..]) + y);
      TagsCodeUnique(a[1..], b[1..], x, y);
      assert a == [a[0]] + a[1..] && b == [b[0]] + b[1..];
    }
  }

  function EventCode(e: Unsigned): Bytes {
    BytesCode(e.pubkey) + (NatCode(e.createdAt) + (NatCode(e.kind) + (TagsCode(e.tags) + BytesCode(e.content))))
  }

  lemma EventCodeUnique(a: Unsigned, b: Unsigned, x: Bytes, y: Bytes)
    requires EventCode(a) + x == EventCode(b) + y
    ensures a == b && x == y
  {
    var a4, b4 := BytesCode(a.content) + x, BytesCode(b.content) + y;
    var a3, b3 := TagsCode(a.tags) + a4, TagsCode(b.tags) + b4;
    var a2, b2 := NatCode(a.kind) + a3, NatCode(b.kind) + b3;
    var a1, b1 := NatCode(a.createdAt) + a2, NatCode(b.createdAt) + b2;
    assert EventCode(a) + x == BytesCode(a.pubkey) + a1 && EventCode(b) + y == BytesCode(b.pubkey) + b1;
    BytesCodeUnique(a.pubkey, b.pubkey, a1, b1);
    NatCodeUnique(a.createdAt, b.createdAt, a2, b2);
    NatCodeUnique(a.kind, b.kind, a3, b3);
    TagsCodeUnique(a.tags, b.tags, a4, b4);
    BytesCodeUnique(a.content, b.content, x, y);
  }

  function SignedCode(s: Signed): Bytes { BytesCode(s.id) + (EventCode(s.event) + BytesCode(s.sig)) }

  lemma SignedCodeUnique(a: Signed, b: Signed)
    requires SignedCode(a) == SignedCode(b)
    ensures a == b
  {
    BytesCodeUnique(a.id, b.id, EventCode(a.event) + BytesCode(a.sig), EventCode(b.event) + BytesCode(b.sig));
    EventCodeUnique(a.event, b.event, BytesCode(a.sig), BytesCode(b.sig));
    assert BytesCode(a.sig) + [] == BytesCode(a.sig) && BytesCode(b.sig) + [] == BytesCode(b.sig);
    BytesCodeUnique(a.sig, b.sig, [], []);
  }

  function RumorCode(r: Rumor): Bytes { BytesCode(r.id) + EventCode(r.event) }

  lemma RumorCodeUnique(a: Rumor, b: Rumor)
    requires RumorCode(a) == RumorCode(b)
    ensures a == b
  {
    BytesCodeUnique(a.id, b.id, EventCode(a.event), EventCode(b.event));
    assert EventCode(a.event) + [] == EventCode(a.event) && EventCode(b.event) + [] == EventCode(b.event);
    EventCodeUnique(a.event, b.event, [], []);
  }

  /** Four bytes for every three, the first telling how many count. */
  function Pack(d: Bytes): (r: Bytes)
    ensures |r| == (|d| + 2) / 3 * 4 && (r != [] ==> r[0] < 3)
  {
    if d == [] then []
    else if |d| == 1 then [1, d[0], 0, 0]
    else if |d| == 2 then [2, d[0], d[1], 0]
    else [0, d[0], d[1], d[2]] + Pack(d[3..])
  }

  lemma {:induction false} PackUnique(a: Bytes, b: Bytes)
    requires Pack(a) == Pack(b)
    ensures a == b
    decreases |a|
  {
    if |a| >= 3 && |b| >= 3 {
      assert Pack(a)[4..] == Pack(a[3..]) && Pack(b)[4..] == Pack(b[3..]);
      PackUnique(a[3..], b[3..]);
      assert Pack(a)[1] == a[0] && Pack(a)[2] == a[1] && Pack(a)[3] == a[2];
      assert Pack(b)[1] == b[0] && Pack(b)[2] == b[1] && Pack(b)[3] == b[2];
      assert a == [a[0], a[1], a[2]] + a[3..] && b == [b[0], b[1], b[2]] + b[3..];
    } else if a != [] {
      assert Pack(a)[0] == (if |a| == 1 then 1 else if |a| == 2 then 2 else 0);
      assert Pack(b)[0] == (if |b| == 1 then 1 else if |b| == 2 then 2 else 0);
      assert Pack(a)[1] == a[0] && Pack(b)[1] == b[0];
    }
  }

  ghost function Unpack(p: Bytes): Option<Bytes> {
    if exists d :: Pack(d) == p then var d :| Pack(d) == p; Some(d) else None
  }

  ghost function ParseSigned(b: Bytes): Option<Signed> {
    if exists s :: SignedCode(s) == b then var s :| SignedCode(s) == b; Some(s) else None
  }

  ghost function ParseRumor(b: Bytes): Option<Rumor> {
    if exists r :: RumorCode(r) == b then var r :| RumorCode(r) == b; Some(r) else None
  }

  // The instance.

  ghost const TOY_NIP44: Nip44.Primitives :=
    Nip44.Primitives(
      (_: Bytes, _: Bytes) => Some(Nip44.Keys([], [])),
      (_: Bytes, data: Bytes) => data,
      (_: Bytes, _: Bytes) => Repeat(32, 0),
      (d: Bytes) => Pack(d),
      (p: Bytes) => Unpack(p),
      (_: Bytes) => true)

  ghost const TOY: Primitives :=
    Primitives(
      TOY_NIP44,
      (_: Bytes) => Some(Repeat(32, 0)),
      (_: Bytes, _: Bytes) => Some([]),
      (b: Bytes) => b,
      (b: Bytes, n: nat) => if |b| == n then Some(b) else None,
      (_: Unsigned) => Repeat(32, 0),
      (_: Bytes, _: Bytes, _: Bytes) => Some(Repeat(64, 0)),
      (_: Bytes) => true,
      (_: Bytes, _: Bytes, _: Bytes) => true,
      (s: Signed) => SignedCode(s),
      (b: Bytes) => ParseSigned(b),
      (r: Rumor) => RumorCode(r),
      (b: Bytes) => ParseRumor(b))

  lemma ToyNip44IsLawful()
    ensures Nip44.Lawful(TOY_NIP44)
  {
    forall d ensures Unpack(Pack(d)) == Some(d) { PackUnique(d, Unpack(Pack(d)).value); }
  }

  lemma ToySignsLawfully()
    ensures forall s, id, aux | TOY.publicKey(s).Some? && TOY.sign(s, id, aux).Some? ::
              |TOY.sign(s, id, aux).value| == 64
              && TOY.signatureHolds(TOY.publicKey(s).value, id, TOY.sign(s, id, aux).value)
  {
  }

  lemma ToyEventsLawful()
    ensures forall event :: TOY.parseEvent(TOY.eventJson(event)) == Some(event) && TOY.nip44.utf8(TOY.eventJson(event))
    ensures forall event :: |TOY.eventJson(event)| >= |event.event.content|
  {
    forall s ensures ParseSigned(SignedCode(s)) == Some(s) && |SignedCode(s)| >= |s.event.content| {
      SignedCodeUnique(s, ParseSigned(SignedCode(s)).value);
    }
  }

  lemma ToyRumorsLawful()
    ensures forall rumor :: TOY.parseRumor(TOY.rumorJson(rumor)) == Some(rumor) && TOY.nip44.utf8(TOY.rumorJson(rumor))
  {
    forall r ensures ParseRumor(RumorCode(r)) == Some(r) { RumorCodeUnique(r, ParseRumor(RumorCode(r)).value); }
  }

  /** The laws hold together. */
  lemma ToyIsLawful()
    ensures Lawful(TOY)
  {
    ToyNip44IsLawful();
    ToySignsLawfully();
    ToyEventsLawful();
    ToyRumorsLawful();
  }

  // Wraps that do not open.

  const ZEROS: Bytes := Repeat(32, 0)

  const RUMOR := Rumor(ZEROS, Unsigned(ZEROS, 0, 14, [], []))

  function MaterialAt(createdAt: nat): Material { Material(0, ZEROS, ZEROS, [], createdAt, ZEROS, ZEROS) }

  /** `EventLimits::default()`. */
  const DEFAULT: Limits := Limits(256 * 1024, 64 * 1024, 64, 16, 1024, 15 * 60)

  lemma PadLength(m: Bytes)
    requires 0 < |m| <= 10000
    ensures Nip44.Pad(m).Ok? && |Nip44.Pad(m).value| <= 2 * |m| + 34
  {
    Nip44.PaddedBounds(|m|);
    Nip44.NextPowerBounds(|m|);
  }

  lemma AssembledLength(padded: Bytes)
    ensures |Nip44.Assemble(TOY_NIP44, Nip44.Keys([], []), ZEROS, padded)| == 65 + |padded|
  {
  }

  /** Encryption in the toy succeeds on short texts, with a payload not much longer. */
  lemma ToyEncrypts(m: Bytes)
    requires 0 < |m| <= 10000
    ensures var r := EncryptFor(TOY, [], ZEROS, m, ZEROS); r.Ok? && |r.value| <= 4 * |m| + 500
  {
    PadLength(m);
    var padded := Nip44.Pad(m).value;
    AssembledLength(padded);
    var raw := Nip44.Assemble(TOY_NIP44, Nip44.Keys([], []), ZEROS, padded);
    assert EncryptFor(TOY, [], ZEROS, m, ZEROS) == Ok(Pack(raw));
    PackedLength(raw);
  }

  lemma PackedLength(raw: Bytes)
    ensures 3 * |Pack(raw)| <= 4 * |raw| + 8
  {
  }

  lemma ToySigns(e: Unsigned)
    requires e.pubkey == ZEROS && |e.content| <= DEFAULT.maxContent && |e.tags| <= 10
    requires forall i | 0 <= i < |e.tags| :: TagFits(e.tags[i], DEFAULT)
    ensures Sign(TOY, e, [], ZEROS, DEFAULT) == Ok(Signed(ZEROS, e, Repeat(64, 0)))
  {
  }

  lemma SealCodeLength(content: Bytes)
    ensures |SignedCode(Signed(ZEROS, Unsigned(ZEROS, 0, SEAL_KIND, [], content), Repeat(64, 0)))| == 276 + 2 * |content|
  {
  }

  /** Creation succeeds, whatever the wrapper's time. */
  lemma ToyCreates(createdAt: nat) returns (wrap: Signed)
    ensures Create(TOY, RUMOR, [], ZEROS, Persistent, MaterialAt(createdAt), DEFAULT) == Ok(wrap)
    ensures wrap.event.createdAt == createdAt
  {
    var m, limits := MaterialAt(createdAt), DEFAULT;
    assert |RumorCode(RUMOR)| == 148;
    ToyEncrypts(RumorCode(RUMOR));
    var content := EncryptFor(TOY, [], ZEROS, RumorCode(RUMOR), ZEROS).value;
    var sealEvent := Unsigned(ZEROS, 0, SEAL_KIND, [], content);
    ToySigns(sealEvent);
    var seal := Signed(ZEROS, sealEvent, Repeat(64, 0));
    assert MakeSeal(TOY, RUMOR, [], ZEROS, m, limits) == Ok(seal);
    SealCodeLength(content);
    ToyEncrypts(SignedCode(seal));
    var outer := EncryptFor(TOY, [], ZEROS, SignedCode(seal), ZEROS).value;
    var event := Unsigned(ZEROS, createdAt, GIFT_WRAP_KIND, [[P_FIELD, ZEROS]], outer);
    ToySigns(event);
    wrap := Signed(ZEROS, event, Repeat(64, 0));
    assert MakeWrap(TOY, seal, ZEROS, Persistent, m, limits) == Ok(wrap);
  }

  lemma OpensIff(c: Primitives, createdAt: nat, now: nat, wrap: Signed)
    requires Lawful(c) && c.publicKey([]) == Some(ZEROS)
    requires Create(c, RUMOR, [], ZEROS, Persistent, MaterialAt(createdAt), DEFAULT) == Ok(wrap)
    ensures Open(c, wrap, [], now, DEFAULT).Ok? <==>
            |c.eventJson(wrap)| <= DEFAULT.maxSerialized && Timely(MaterialAt(createdAt), now, DEFAULT)
  {
    OpenCreated(c, RUMOR, [], [], Persistent, MaterialAt(createdAt), wrap, now, DEFAULT);
  }

  /** When a wrap of the toy opens. */
  lemma ToyOpensIff(createdAt: nat, now: nat, wrap: Signed)
    requires Create(TOY, RUMOR, [], ZEROS, Persistent, MaterialAt(createdAt), DEFAULT) == Ok(wrap)
    ensures Open(TOY, wrap, [], now, DEFAULT).Ok? <==>
            |TOY.eventJson(wrap)| <= DEFAULT.maxSerialized && Timely(MaterialAt(createdAt), now, DEFAULT)
  {
    ToyIsLawful();
    OpensIff(TOY, createdAt, now, wrap);
  }

  lemma LongCode(s: Signed)
    ensures |TOY.eventJson(s)| > s.event.createdAt
  {
  }

  lemma Late(createdAt: nat, now: nat)
    requires now <= U64_MAX
    ensures Timely(MaterialAt(createdAt), now, DEFAULT) <==> createdAt <= Latest(now, DEFAULT)
  {
  }

  /** Stamped one second past the allowance, a wrap is created and does not open. */
  lemma EarlyWrapDoesNotOpen(now: nat) returns (wrap: Signed)
    requires now <= U64_MAX
    ensures Create(TOY, RUMOR, [], ZEROS, Persistent, MaterialAt(Latest(now, DEFAULT) + 1), DEFAULT) == Ok(wrap)
    ensures Open(TOY, wrap, [], now, DEFAULT).Err?
  {
    wrap := ToyCreates(Latest(now, DEFAULT) + 1);
    ToyOpensIff(Latest(now, DEFAULT) + 1, now, wrap);
    Late(Latest(now, DEFAULT) + 1, now);
  }

  /** In a coding that writes out the time, a timely wrap is created, is too large, and does not open. */
  lemma LargeWrapDoesNotOpen(now: nat) returns (wrap: Signed)
    requires DEFAULT.maxSerialized <= now <= U64_MAX
    ensures Create(TOY, RUMOR, [], ZEROS, Persistent, MaterialAt(now), DEFAULT) == Ok(wrap)
    ensures Timely(MaterialAt(now), now, DEFAULT) && Open(TOY, wrap, [], now, DEFAULT).Err?
  {
    wrap := ToyCreates(now);
    ToyOpensIff(now, now, wrap);
    LongCode(wrap);
    Late(now, now);
  }
}
