/** Identity fingerprints, what identity keys sign, and the check of one signed statement
    (identity/identity.go, identity/rotation.go, identity/rotation_verify.go). */
module Identity {
  import opened Bytes
  import opened Options
  import opened MsgPack
  import opened Clock
  import opened Mailkey

  const FINGERPRINT_TYPE: Bytes := "mailkey-domain-identity-v1"
  const ALG: Bytes := "ed25519"
  const MANIFEST_CONTEXT: Bytes := "mailkey/mkdp/manifest-signature/v1"
  const STATEMENT_CONTEXT: Bytes := "mailkey/mkdp/identity-rotation/v1"
  const ROTATION_TYPE: Bytes := "mailkey-identity-rotation-v1"
  const REVOCATION_TYPE: Bytes := "mailkey-identity-revocation-v1"

  /** What a fingerprint hashes: the key under the domain and algorithm it is claimed for. */
  function FingerprintPreimage(d: Bytes, pk: Bytes): Bytes {
    Pack(Map([Entry("alg", Str(ALG)), Entry("domain", Str(d)), Entry("pk", Bin(pk)),
              Entry("type", Str(FINGERPRINT_TYPE))]))
  }

  function FingerprintOf(x: Primitives, domain: Bytes, pk: Bytes): Result<Bytes> {
    var d :- x.normalize(domain);
    var _ :- Need(|pk| == PUBLIC_KEY_LENGTH);
    Ok(x.sha256(FingerprintPreimage(d, pk)))
  }

  /** What a manifest proof signs. */
  function Transcript(x: Primitives, domain: Bytes, raw: Bytes): Result<Bytes> {
    var d :- x.normalize(domain);
    Ok(MANIFEST_CONTEXT + d + raw)
  }

  predicate VerifyManifest(x: Primitives, pk: Bytes, domain: Bytes, raw: Bytes, sig: Bytes) {
    && |pk| == PUBLIC_KEY_LENGTH && |sig| == SIGNATURE_LENGTH
    && Transcript(x, domain, raw).Ok?
    && x.verify(pk, Transcript(x, domain, raw).value, sig)
  }

  /** One signed link of a domain's identity history. */
  datatype Statement = Statement(
    kind: Bytes, version: Bytes, domain: Bytes, oldFP: Bytes, newFP: Bytes, newAlg: Bytes, newPK: Bytes,
    notBefore: Time, createdAt: Time, expiresAt: Time, reason: Bytes,
    oldSignature: Bytes, newSignature: Bytes)
  {
    predicate IsRevocation() { kind == REVOCATION_TYPE }

    /** Carries a successor key. */
    predicate HasNew() { |newPK| == PUBLIC_KEY_LENGTH }

    /** Withdraws an identity and names no successor. */
    predicate Terminal() { IsRevocation() && !HasNew() }
  }

  /** The fields a statement's signatures cover, in key order; a rotation has no reason. */
  function SignedEntries(s: Statement, d: Bytes): seq<Entry> {
    [Entry("created_at", Int(Unix(s.createdAt))), Entry("domain", Str(d)),
     Entry("expires_at", Int(Unix(s.expiresAt))), Entry("new_alg", Str(s.newAlg)),
     Entry("new_fp", Bin(s.newFP)), Entry("new_pk", Bin(s.newPK)),
     Entry("not_before", Int(Unix(s.notBefore))), Entry("old_fp", Bin(s.oldFP))]
    + (if s.IsRevocation() then [Entry("reason", Str(s.reason))] else [])
    + [Entry("type", Str(s.kind)), Entry("version", Str(s.version))]
  }

  function SigningBytes(x: Primitives, s: Statement): Result<Bytes> {
    var d :- x.normalize(s.domain);
    Ok(STATEMENT_CONTEXT + Pack(Map(SignedEntries(s, d))))
  }

  predicate Signed(x: Primitives, s: Statement, pk: Bytes, sig: Bytes) {
    |sig| == SIGNATURE_LENGTH && SigningBytes(x, s).Ok? && x.verify(pk, SigningBytes(x, s).value, sig)
  }

  /** The successor fields agree: a key with its own fingerprint, or no trace of either. */
  predicate SuccessorOk(x: Primitives, s: Statement) {
    if s.HasNew() then FingerprintOf(x, s.domain, s.newPK) == Ok(s.newFP)
    else s.newPK == [] && s.newFP == seq(HASH_LENGTH, _ => '\0') && s.newSignature == []
  }

  /** VerifyStatement: `oldPK` is the caller's, never the statement's. */
  predicate Verified(x: Primitives, s: Statement, oldPK: Bytes) {
    && (s.kind == ROTATION_TYPE || s.kind == REVOCATION_TYPE)
    && s.version == VERSION
    && SigningBytes(x, s).Ok?
    && |oldPK| == PUBLIC_KEY_LENGTH
    && FingerprintOf(x, s.domain, oldPK) == Ok(s.oldFP)
    && s.newAlg == ALG
    && SuccessorOk(x, s)
    && Signed(x, s, oldPK, s.oldSignature)
    && (if s.IsRevocation() then s.HasNew() ==> Signed(x, s, s.newPK, s.newSignature)
        else s.HasNew() && Signed(x, s, s.newPK, s.newSignature))
  }
}
