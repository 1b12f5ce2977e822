/** Instants and durations. An instant is a number of nanoseconds since Go's zero time, so the
    zero time is 0 and a sub-second part is visible. Durations do not saturate here. */
module Clock {
  import opened MsgPack

  type Time = int

  const SECOND := 1_000_000_000
  const MINUTE := 60 * SECOND
  const HOUR := 60 * MINUTE

  /** Seconds from Go's zero time (year 1) to the Unix epoch. */
  const EPOCH := 62_135_596_800

  function Unix(t: Time): int { t / SECOND - EPOCH }

  function FromUnix(s: int): Time { (s + EPOCH) * SECOND }

  /** An instant the wire can carry exactly: whole seconds, in the 64-bit range. */
  predicate WholeSeconds(t: Time) {
    t % SECOND == 0 && IsInt64(Unix(t))
  }

  lemma UnixRoundTrip(s: int)
    ensures Unix(FromUnix(s)) == s && FromUnix(s) % SECOND == 0
  {
  }

  lemma FromUnixOfWhole(t: Time)
    requires t % SECOND == 0
    ensures FromUnix(Unix(t)) == t
  {
  }
}

/** The protocol's types (mailkey.go), and the foreign functions it rests on. */
module Mailkey {
  import opened Bytes
  import opened Options
  import opened MsgPack
  import Fields
  import opened Clock

  const VERSION: Bytes := "MKDP1"
  const MAX_AUTHORITY_ENTRIES := 4
  const MAX_BODY_BYTES := 16384
  const ALG_X25519: Bytes := "x25519"
  const ENC_AES256GCM: Bytes := "aes256gcm"
  const HASH_LENGTH := 32
  const PUBLIC_KEY_LENGTH := 32
  const SIGNATURE_LENGTH := 64

  datatype KeyDescriptor = KeyDescriptor(kid: Bytes, algorithm: Bytes, encryption: Bytes, publicKey: Bytes)

  datatype Manifest = Manifest(
    version: Bytes, domain: Bytes, issuedAt: Time, expiresAt: Time,
    key: KeyDescriptor, authority: seq<Bytes>)

  datatype Proof = Proof(publicKey: Bytes, fingerprint: Bytes, signature: Bytes)

  /** One successful authority fetch (Result in mailkey.go). `proofError` is the text recorded
      for a proof that was present and wrong; empty means none. */
  datatype Fetched = Fetched(
    manifest: Manifest, id: Bytes, raw: Bytes, fetchedAt: Time, expiresAt: Time,
    host: Bytes, proof: Option<Proof>, proofError: Bytes)

  /** SHA-256, Ed25519 verification (key, message, signature), IDNA normalization and the
      MessagePack reader are libraries: any functions meeting `Sound` will do. */
  datatype Primitives = Primitives(
    sha256: Bytes -> Bytes,
    verify: (Bytes, Bytes, Bytes) -> bool,
    normalize: Bytes -> Result<Bytes>,
    unpack: Bytes -> Option<Value>)

  predicate IsDomainByte(c: byte) {
    'a' <= c <= 'z' || '0' <= c <= '9' || c == '-' || c == '.'
  }

  /** The shape of a normalized domain: a lowercase A-label name, at most 253 bytes. */
  predicate IsDomain(d: Bytes) {
    0 < |d| <= 253 && forall i :: 0 <= i < |d| ==> IsDomainByte(d[i])
  }

  predicate Canonical(x: Primitives, d: Bytes) {
    x.normalize(d) == Ok(d)
  }

  ghost predicate Sound(x: Primitives) {
    && (forall b :: |x.sha256(b)| == HASH_LENGTH)
    && (forall s :: x.normalize(s).Ok? ==> IsDomain(x.normalize(s).value) && Canonical(x, x.normalize(s).value))
    && (forall v :: Packable(v) && Fields.KeysSorted(v) ==> x.unpack(Pack(v)) == Some(v))
  }
}

/** `Sound` asks for nothing impossible. */
module SoundLibraries {
  import opened Bytes
  import opened Options
  import opened MsgPack
  import opened MsgPackProofs
  import opened Mailkey

  function Sample(): Primitives {
    Primitives(b => seq(HASH_LENGTH, _ => '\0'), (key, message, sig) => false,
               s => if IsDomain(s) then Ok(s) else Err, b => Unpack(b))
  }

  lemma SoundIsSatisfiable()
    ensures Sound(Sample())
  {
    forall v | Packable(v) ensures Sample().unpack(Pack(v)) == Some(v) {
      UnpackInvertsPack(v);
    }
  }
}
