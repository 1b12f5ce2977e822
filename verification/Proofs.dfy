/** The detached identity proof in its three response fields (identity/proof.go). */
module Proofs {
  import opened Bytes
  import opened Options
  import opened Mailkey
  import opened Identity
  import opened Base64Url

  const HEADER_IDENTITY: Bytes := "Mail-Key-Identity"
  const HEADER_SIGNER: Bytes := "Mail-Key-Signer"
  const HEADER_SIGNATURE: Bytes := "Mail-Key-Signature"
  const IDENTITY_PREFIX: Bytes := "ed25519:"

  /** Field name to values, as net/http keeps them. */
  type HeaderFields = map<Bytes, seq<Bytes>>

  class Header {
    var fields: HeaderFields

    constructor ()
      ensures fields == map[]
    {
      fields := map[];
    }

    /** Replaces every value of the field. */
    method Set(name: Bytes, value: Bytes)
      modifies this
      ensures fields == old(fields)[name := [value]]
    {
      fields := fields[name := [value]];
    }
  }

  /** The one way to write a proof. */
  function Written(f: HeaderFields, p: Proof): HeaderFields {
    f[HEADER_IDENTITY := [IDENTITY_PREFIX + Encode(p.publicKey)]]
     [HEADER_SIGNER := [Encode(p.fingerprint)]]
     [HEADER_SIGNATURE := [Encode(p.signature)]]
  }

  method WriteProof(h: Header, p: Option<Proof>)
    modifies h
    ensures h.fields == if p.None? then old(h.fields) else Written(old(h.fields), p.value)
  {
    if p.None? {
      return;
    }
    h.Set(HEADER_IDENTITY, IDENTITY_PREFIX + Encode(p.value.publicKey));
    h.Set(HEADER_SIGNER, Encode(p.value.fingerprint));
    h.Set(HEADER_SIGNATURE, Encode(p.value.signature));
  }

  datatype Reading = Absent | Present(proof: Proof) | Malformed

  function Values(f: HeaderFields, name: Bytes): seq<Bytes> {
    if name in f then f[name] else []
  }

  function DecodedProof(idv: Bytes, fpv: Bytes, sgv: Bytes): Result<Proof> {
    var n := |IDENTITY_PREFIX|;
    var _ :- Need(|idv| > n && idv[..n] == IDENTITY_PREFIX);
    var pk :- DecodeExact(idv[n..], PUBLIC_KEY_LENGTH);
    var fp :- DecodeExact(fpv, HASH_LENGTH);
    var sig :- DecodeExact(sgv, SIGNATURE_LENGTH);
    Ok(Proof(pk, fp, sig))
  }

  function ReadProof(f: HeaderFields): Reading {
    var ids, fps, sgs := Values(f, HEADER_IDENTITY), Values(f, HEADER_SIGNER), Values(f, HEADER_SIGNATURE);
    if ids == [] && fps == [] && sgs == [] then Absent
    else if |ids| != 1 || |fps| != 1 || |sgs| != 1 then Malformed
    else match DecodedProof(ids[0], fps[0], sgs[0])
      case Ok(p) => Present(p)
      case Err => Malformed
  }

  /** Check: the fingerprint is this key's for the domain, and the signature covers the bytes. */
  predicate Consistent(x: Primitives, p: Proof, domain: Bytes, raw: Bytes) {
    FingerprintOf(x, domain, p.publicKey) == Ok(p.fingerprint)
    && VerifyManifest(x, p.publicKey, domain, raw, p.signature)
  }

  predicate Sized(p: Proof) {
    |p.publicKey| == PUBLIC_KEY_LENGTH && |p.fingerprint| == HASH_LENGTH && |p.signature| == SIGNATURE_LENGTH
  }

  lemma DecodedIff(idv: Bytes, fpv: Bytes, sgv: Bytes, p: Proof)
    ensures DecodedProof(idv, fpv, sgv) == Ok(p) <==>
      && Sized(p) && idv == IDENTITY_PREFIX + Encode(p.publicKey)
      && fpv == Encode(p.fingerprint) && sgv == Encode(p.signature)
  {
    var n := |IDENTITY_PREFIX|;
    OneSpelling(fpv, HASH_LENGTH, p.fingerprint);
    OneSpelling(sgv, SIGNATURE_LENGTH, p.signature);
    if |idv| > n && idv[..n] == IDENTITY_PREFIX {
      OneSpelling(idv[n..], PUBLIC_KEY_LENGTH, p.publicKey);
      assert idv == IDENTITY_PREFIX + idv[n..];
    }
    if Sized(p) && idv == IDENTITY_PREFIX + Encode(p.publicKey) {
      EncodeSpells(p.publicKey);
      Seam(IDENTITY_PREFIX, Encode(p.publicKey));
    }
  }

  /** A proof is read exactly from the fields that write it: one value each, one spelling each.
      Absence is read only when all three are absent, so a stripped field is an error. */
  lemma ReadIff(f: HeaderFields, p: Proof)
    ensures ReadProof(f).Absent? <==>
      Values(f, HEADER_IDENTITY) == [] && Values(f, HEADER_SIGNER) == [] && Values(f, HEADER_SIGNATURE) == []
    ensures ReadProof(f) == Present(p) <==>
      && Sized(p)
      && Values(f, HEADER_IDENTITY) == [IDENTITY_PREFIX + Encode(p.publicKey)]
      && Values(f, HEADER_SIGNER) == [Encode(p.fingerprint)]
      && Values(f, HEADER_SIGNATURE) == [Encode(p.signature)]
  {
    var ids, fps, sgs := Values(f, HEADER_IDENTITY), Values(f, HEADER_SIGNER), Values(f, HEADER_SIGNATURE);
    if |ids| == 1 && |fps| == 1 && |sgs| == 1 {
      DecodedIff(ids[0], fps[0], sgs[0], p);
      assert ids == [ids[0]] && fps == [fps[0]] && sgs == [sgs[0]];
    }
  }

  lemma NamesApart()
    ensures HEADER_IDENTITY != HEADER_SIGNER && HEADER_SIGNER != HEADER_SIGNATURE && HEADER_IDENTITY != HEADER_SIGNATURE
  {
    assert |HEADER_IDENTITY| == 17 && |HEADER_SIGNER| == 15 && |HEADER_SIGNATURE| == 18;
  }

  /** Writing then reading returns the proof, whatever the header held before. */
  lemma WriteThenRead(f: HeaderFields, p: Proof)
    requires Sized(p)
    ensures ReadProof(Written(f, p)) == Present(p)
  {
    NamesApart();
    ReadIff(Written(f, p), p);
  }
}
