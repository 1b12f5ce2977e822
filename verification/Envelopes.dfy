/** The sealed message's wire form and associated data, and the checks Seal makes before any
    key agreement (envelope/wire.go, envelope/envelope.go). */
module Envelopes {
  import opened Bytes
  import opened Options
  import opened MsgPack
  import opened MsgPackProofs
  import opened Fields
  import opened Clock
  import opened Mailkey
  import opened Manifests

  const SUITE: Bytes := "mkdp1-x25519-hkdf-sha256-aes256gcm"
  const ENVELOPE_VERSION := 1
  const NONCE_LENGTH := 12
  const MAX_WIRE_BYTES := 0x400_0000
  const UINT32 := 0x1_0000_0000

  datatype Header = Header(
    version: nat, suite: Bytes, domain: Bytes, kid: Bytes, manifestId: Bytes,
    algorithm: Bytes, encryption: Bytes, ephemeralPub: Bytes)

  datatype Envelope = Envelope(header: Header, nonce: Bytes, ciphertext: Bytes)

  /** What Go's field types guarantee: a uint32 version, 32-byte identifiers. */
  predicate WellTyped(h: Header) {
    h.version < UINT32 && |h.kid| == HASH_LENGTH && |h.manifestId| == HASH_LENGTH
  }

  /** Header.Validate. */
  predicate Valid(h: Header) {
    && h.version == ENVELOPE_VERSION && h.suite == SUITE
    && h.algorithm == ALG_X25519 && h.encryption == ENC_AES256GCM
    && h.domain != [] && |h.ephemeralPub| == PUBLIC_KEY_LENGTH
  }

  /** The envelope map, with an arbitrary integer in the place of the version. */
  function Entries(e: Envelope, v: int): seq<Entry> {
    var h := e.header;
    [Entry("alg", Str(h.algorithm)), Entry("ciphertext", Bin(e.ciphertext)), Entry("domain", Str(h.domain)),
     Entry("enc", Str(h.encryption)), Entry("ephemeral_pk", Bin(h.ephemeralPub)), Entry("kid", Bin(h.kid)),
     Entry("manifest_id", Bin(h.manifestId)), Entry("nonce", Bin(e.nonce)), Entry("suite", Str(h.suite)),
     Entry("v", Int(v))]
  }

  function HeaderEntries(h: Header): seq<Entry> {
    [Entry("alg", Str(h.algorithm)), Entry("domain", Str(h.domain)),
     Entry("enc", Str(h.encryption)), Entry("ephemeral_pk", Bin(h.ephemeralPub)), Entry("kid", Bin(h.kid)),
     Entry("manifest_id", Bin(h.manifestId)), Entry("suite", Str(h.suite)), Entry("v", Int(h.version))]
  }

  function Marshal(e: Envelope): Result<Bytes> {
    var _ :- Need(Valid(e.header) && |e.nonce| == NONCE_LENGTH);
    Ok(Pack(Map(Entries(e, e.header.version))))
  }

  /** Header.AAD: the bytes the AEAD tag covers. */
  function AAD(h: Header): Result<Bytes> {
    var _ :- Need(Valid(h));
    Ok(Pack(Map(HeaderEntries(h))))
  }

  function IdField(es: seq<Entry>, key: Bytes): Result<Bytes> {
    var b :- RawField(es, key);
    var _ :- Need(|b| == HASH_LENGTH);
    Ok(b)
  }

  /** Unmarshal up to the canonical comparison; `uint32(ver)` keeps the low 32 bits. */
  function UnmarshalFields(v: Value): Result<Envelope> {
    var m :- AsMap(v);
    var _ :- Need(|m| == 10);
    var ver :- LongField(m, "v");
    var suite :- Utf8Field(m, "suite");
    var domain :- Utf8Field(m, "domain");
    var alg :- Utf8Field(m, "alg");
    var enc :- Utf8Field(m, "enc");
    var kid :- IdField(m, "kid");
    var mid :- IdField(m, "manifest_id");
    var ephemeral :- RawField(m, "ephemeral_pk");
    var nonce :- RawField(m, "nonce");
    var ciphertext :- RawField(m, "ciphertext");
    var e := Envelope(Header(ver % UINT32, suite, domain, kid, mid, alg, enc, ephemeral), nonce, ciphertext);
    var _ :- Need(Valid(e.header));
    Ok(e)
  }

  function Unmarshal(x: Primitives, raw: Bytes): Result<Envelope> {
    var _ :- Need(0 < |raw| <= MAX_WIRE_BYTES);
    var v := x.unpack(raw);
    var _ :- Need(v.Some?);
    var e :- UnmarshalFields(v.value);
    var again :- Marshal(e);
    var _ :- Need(raw == again);
    Ok(e)
  }

  // --- proofs --------------------------------------------------------------------

  lemma SortedOf10(e0: Entry, e1: Entry, e2: Entry, e3: Entry, e4: Entry, e5: Entry, e6: Entry, e7: Entry, e8: Entry, e9: Entry)
    requires Less(e0.key, e1.key) && Less(e1.key, e2.key) && Less(e2.key, e3.key) && Less(e3.key, e4.key)
    requires Less(e4.key, e5.key) && Less(e5.key, e6.key) && Less(e6.key, e7.key) && Less(e7.key, e8.key)
    requires Less(e8.key, e9.key)
    ensures Sorted([e0, e1, e2, e3, e4, e5, e6, e7, e8, e9])
  {
  }

  lemma KeyOrder()
    ensures Less("alg", "ciphertext") && Less("ciphertext", "domain") && Less("domain", "enc")
    ensures Less("enc", "ephemeral_pk") && Less("ephemeral_pk", "kid")
  {
    LessBy("alg", "ciphertext", 0); LessBy("ciphertext", "domain", 0); LessBy("domain", "enc", 0);
    LessBy("enc", "ephemeral_pk", 1); LessBy("ephemeral_pk", "kid", 0);
  }

  lemma KeyOrderContinued()
    ensures Less("kid", "manifest_id") && Less("manifest_id", "nonce")
    ensures Less("nonce", "suite") && Less("suite", "v")
  {
    LessBy("kid", "manifest_id", 0); LessBy("manifest_id", "nonce", 0);
    LessBy("nonce", "suite", 0); LessBy("suite", "v", 0);
  }

  lemma EntriesSorted(e: Envelope, v: int)
    ensures Sorted(Entries(e, v))
  {
    var m := Entries(e, v);
    KeyOrder();
    KeyOrderContinued();
    SortedOf10(m[0], m[1], m[2], m[3], m[4], m[5], m[6], m[7], m[8], m[9]);
  }

  lemma FieldsOf(e: Envelope, v: int)
    ensures var m := Entries(e, v); var h := e.header;
      && Get(m, "alg") == Str(h.algorithm) && Get(m, "ciphertext") == Bin(e.ciphertext)
      && Get(m, "domain") == Str(h.domain) && Get(m, "enc") == Str(h.encryption)
      && Get(m, "ephemeral_pk") == Bin(h.ephemeralPub) && Get(m, "kid") == Bin(h.kid)
      && Get(m, "manifest_id") == Bin(h.manifestId) && Get(m, "nonce") == Bin(e.nonce)
      && Get(m, "suite") == Str(h.suite) && Get(m, "v") == Int(v)
  {
    var m := Entries(e, v);
    EntriesSorted(e, v);
    GetAt(m, 0); GetAt(m, 1); GetAt(m, 2); GetAt(m, 3); GetAt(m, 4);
    GetAt(m, 5); GetAt(m, 6); GetAt(m, 7); GetAt(m, 8); GetAt(m, 9);
  }

  lemma LeafFits(v: Value)
    ensures v.Str? ==> |v.s| <= |Pack(v)|
    ensures v.Bin? ==> |v.b| <= |Pack(v)|
  {
  }

  lemma {:induction false} EntryFits(es: seq<Entry>, i: nat)
    requires i < |es|
    ensures |Pack(es[i].val)| <= |PackEntries(es)|
  {
    if i > 0 {
      EntryFits(es[1..], i - 1);
    }
  }

  /** Nothing short enough for the wire has a field too long to pack. */
  lemma ShortIsPackable(e: Envelope)
    requires WellTyped(e.header) && Marshal(e).Ok? && |Marshal(e).value| <= MAX_WIRE_BYTES
    ensures Packable(Map(Entries(e, e.header.version)))
  {
    var m := Entries(e, e.header.version);
    EntryFits(m, 1);
    LeafFits(m[1].val);
    EntryFits(m, 2);
    LeafFits(m[2].val);
  }

  lemma FieldsRoundTrip(e: Envelope, v: int)
    requires WellTyped(e.header) && Valid(e.header) && IsInt64(v) && v % UINT32 == e.header.version
    ensures UnmarshalFields(Map(Entries(e, v))) == Ok(e)
  {
    FieldsOf(e, v);
  }

  lemma UnmarshalSound(x: Primitives, raw: Bytes)
    requires Unmarshal(x, raw).Ok?
    ensures var e := Unmarshal(x, raw).value;
      WellTyped(e.header) && Marshal(e) == Ok(raw) && |raw| <= MAX_WIRE_BYTES
  {
  }

  lemma EntriesKeysSorted(e: Envelope, v: int)
    ensures KeysSorted(Map(Entries(e, v)))
  {
    EntriesSorted(e, v);
  }

  lemma UnmarshalComplete(x: Primitives, e: Envelope)
    requires Sound(x) && WellTyped(e.header) && Marshal(e).Ok? && |Marshal(e).value| <= MAX_WIRE_BYTES
    ensures Unmarshal(x, Marshal(e).value) == Ok(e)
  {
    ShortIsPackable(e);
    EntriesKeysSorted(e, e.header.version);
    FieldsRoundTrip(e, e.header.version);
  }

  /** Exactly one byte string is accepted per envelope: the one it marshals to. */
  lemma WireIff(x: Primitives, raw: Bytes, e: Envelope)
    requires Sound(x)
    ensures Unmarshal(x, raw) == Ok(e) <==>
      WellTyped(e.header) && Marshal(e) == Ok(raw) && |raw| <= MAX_WIRE_BYTES
  {
    if Unmarshal(x, raw) == Ok(e) {
      UnmarshalSound(x, raw);
    } else if WellTyped(e.header) && Marshal(e) == Ok(raw) && |raw| <= MAX_WIRE_BYTES {
      UnmarshalComplete(x, e);
    }
  }

  lemma VersionsPackApart(e: Envelope, a: int, b: int)
    requires a != b && Packable(Map(Entries(e, a))) && IsInt64(b)
    ensures Pack(Map(Entries(e, a))) != Pack(Map(Entries(e, b)))
  {
    var m, n := Entries(e, a), Entries(e, b);
    assert forall i :: 0 <= i < 9 ==> m[i] == n[i];
    assert m[9].val == Int(a) && n[9].val == Int(b);
    if Pack(Map(m)) == Pack(Map(n)) { PackPrefixFree(Map(m), Map(n), [], []); }
  }

  /** A version that only truncates to 1 passes every field check, header validation included,
      and is refused by the canonical comparison alone. */
  lemma TruncatedVersion(x: Primitives, e: Envelope, k: int)
    requires Sound(x) && WellTyped(e.header) && Marshal(e).Ok?
    requires k != 0 && IsInt64(ENVELOPE_VERSION + k * UINT32)
    requires Packable(Map(Entries(e, ENVELOPE_VERSION + k * UINT32)))
    ensures var v := Map(Entries(e, ENVELOPE_VERSION + k * UINT32));
      UnmarshalFields(v) == Ok(e) && Unmarshal(x, Pack(v)).Err?
  {
    var ver := ENVELOPE_VERSION + k * UINT32;
    FieldsRoundTrip(e, ver);
    EntriesKeysSorted(e, ver);
    VersionsPackApart(e, ver, e.header.version);
  }

  lemma HeaderFields(h: Header)
    ensures var m := HeaderEntries(h);
      && m[0].val == Str(h.algorithm) && m[1].val == Str(h.domain) && m[2].val == Str(h.encryption)
      && m[3].val == Bin(h.ephemeralPub) && m[4].val == Bin(h.kid) && m[5].val == Bin(h.manifestId)
      && m[6].val == Str(h.suite) && m[7].val == Int(h.version)
  {
  }

  /** The associated data determines every header field. */
  lemma AADInjective(a: Header, b: Header)
    requires WellTyped(a) && WellTyped(b) && AAD(a).Ok? && AAD(a) == AAD(b)
    requires |a.domain| < UINT32 && |b.domain| < UINT32
    ensures a == b
  {
    PackPrefixFree(Map(HeaderEntries(a)), Map(HeaderEntries(b)), [], []);
    HeaderFields(a);
    HeaderFields(b);
  }

  // --- Seal ----------------------------------------------------------------------

  /** Every check Seal makes on the caller's result before it touches a key. */
  predicate SealChecks(x: Primitives, r: Fetched, now: Time) {
    && r.manifest.domain != [] && Canonical(x, r.manifest.domain)
    && SuiteOk(r.manifest.key.algorithm, r.manifest.key.encryption, r.manifest.key.publicKey)
    && Packed(x, r.manifest).Ok?
    && ManifestIDOf(x, Packed(x, r.manifest).value) == r.id
    && (r.raw != [] ==> r.raw == Packed(x, r.manifest).value)
    && r.manifest.expiresAt != 0
    && r.manifest.expiresAt > now
  }

  /** The header Seal writes for a result and an ephemeral key. */
  function SealHeader(r: Fetched, ephemeral: Bytes): Header {
    Header(ENVELOPE_VERSION, SUITE, r.manifest.domain, r.manifest.key.kid, r.id,
           r.manifest.key.algorithm, r.manifest.key.encryption, ephemeral)
  }

  /** A result that passes the checks gives a well-formed header, and the kid in it is that of
      the very key the message is sealed to: the one the receiver's own check recomputes. */
  lemma SealedHeader(x: Primitives, r: Fetched, ephemeral: Bytes, now: Time)
    requires Sound(x) && SealChecks(x, r, now) && |ephemeral| == PUBLIC_KEY_LENGTH
    ensures var h := SealHeader(r, ephemeral);
      && WellTyped(h) && AAD(h).Ok?
      && KeyIDOf(x, h.domain, h.algorithm, h.encryption, r.manifest.key.publicKey) == Ok(h.kid)
  {
    assert |x.sha256(Packed(x, r.manifest).value)| == HASH_LENGTH;
    var k := r.manifest.key;
    assert |x.sha256(Pack(KeyDescriptorValue(r.manifest.domain, k.algorithm, k.encryption, k.publicKey)))| == HASH_LENGTH;
  }
}
