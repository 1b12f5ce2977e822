/** The manifest's canonical bytes (manifest/manifest.go). */
module Manifests {
  import opened Bytes
  import opened Options
  import opened MsgPack
  import opened Fields
  import opened Clock
  import opened Mailkey

  const KEY_DESCRIPTOR_TYPE: Bytes := "mailkey-envelope-key-v1"

  predicate SuiteOk(alg: Bytes, enc: Bytes, pk: Bytes) {
    alg == ALG_X25519 && enc == ENC_AES256GCM && |pk| == PUBLIC_KEY_LENGTH
  }

  function KeyDescriptorValue(domain: Bytes, alg: Bytes, enc: Bytes, pk: Bytes): Value {
    Map([Entry("alg", Str(alg)), Entry("domain", Str(domain)), Entry("enc", Str(enc)),
         Entry("pk", Bin(pk)), Entry("type", Str(KEY_DESCRIPTOR_TYPE))])
  }

  function KeyIDOf(x: Primitives, domain: Bytes, alg: Bytes, enc: Bytes, pk: Bytes): Result<Bytes> {
    var _ :- Need(domain != []);
    var _ :- Need(SuiteOk(alg, enc, pk));
    Ok(x.sha256(Pack(KeyDescriptorValue(domain, alg, enc, pk))))
  }

  function KeyEntries(k: KeyDescriptor): seq<Entry> {
    [Entry("alg", Str(k.algorithm)), Entry("enc", Str(k.encryption)),
     Entry("kid", Bin(k.kid)), Entry("pk", Bin(k.publicKey))]
  }

  function Texts(ss: seq<Bytes>): (vs: seq<Value>)
    ensures |vs| == |ss| && forall i :: 0 <= i < |ss| ==> vs[i] == Str(ss[i])
  {
    seq(|ss|, i requires 0 <= i < |ss| => Str(ss[i]))
  }

  /** The authority field is present only when the domain delegates. */
  function AuthorityEntry(authority: seq<Bytes>): seq<Entry> {
    if authority == [] then [] else [Entry("authority", List(Texts(authority)))]
  }

  function TopEntries(m: Manifest): seq<Entry> {
    AuthorityEntry(m.authority) +
    [Entry("domain", Str(m.domain)), Entry("expires_at", Int(Unix(m.expiresAt))),
     Entry("issued_at", Int(Unix(m.issuedAt))), Entry("key", Map(KeyEntries(m.key))), Entry("v", Str(m.version))]
  }

  predicate AuthorityOk(x: Primitives, authority: seq<Bytes>) {
    |authority| <= MAX_AUTHORITY_ENTRIES && forall i :: 0 <= i < |authority| ==> Canonical(x, authority[i])
  }

  /** Pack. */
  function Packed(x: Primitives, m: Manifest): Result<Bytes> {
    var _ :- Need(m.version == VERSION);
    var _ :- Need(m.domain != [] && Canonical(x, m.domain));
    var _ :- Need(AuthorityOk(x, m.authority));
    var _ :- Need(SuiteOk(m.key.algorithm, m.key.encryption, m.key.publicKey));
    var kid :- KeyIDOf(x, m.domain, m.key.algorithm, m.key.encryption, m.key.publicKey);
    var _ :- Need(kid == m.key.kid);
    Ok(Pack(Map(TopEntries(m))))
  }

  function TextsOf(items: seq<Value>): (ss: seq<Bytes>)
    requires forall i :: 0 <= i < |items| ==> items[i].Str?
    ensures |ss| == |items| && forall i :: 0 <= i < |items| ==> ss[i] == items[i].s
  {
    seq(|items|, i requires 0 <= i < |items| => items[i].s)
  }

  function AuthorityField(x: Primitives, top: seq<Entry>): Result<seq<Bytes>> {
    var v := Get(top, "authority");
    if v.Nil? then Ok([])
    else
      var _ :- Need(v.List? && 0 < |v.items| <= MAX_AUTHORITY_ENTRIES);
      var _ :- Need(forall i :: 0 <= i < |v.items| ==> v.items[i].Str? && Canonical(x, v.items[i].s));
      Ok(TextsOf(v.items))
  }

  /** The key half: kid, suite and public key, with the kid recomputed. */
  function ParsedKey(x: Primitives, v: Value, domain: Bytes): Result<KeyDescriptor> {
    var key :- AsMap(v);
    var _ :- Need(|key| == 4);
    var alg :- Utf8Field(key, "alg");
    var enc :- Utf8Field(key, "enc");
    var pk :- RawField(key, "pk");
    var kid :- RawField(key, "kid");
    var _ :- Need(|kid| == HASH_LENGTH);
    var want :- KeyIDOf(x, domain, alg, enc, pk);
    var _ :- Need(kid == want);
    Ok(KeyDescriptor(want, alg, enc, pk))
  }

  const TOP_KEYS: set<Bytes> := {"v", "domain", "issued_at", "expires_at", "key", "authority"}

  /** What the fields say, before the canonical comparison. */
  function ParsedFields(x: Primitives, v: Value, requested: Bytes): Result<Manifest> {
    var top :- AsMap(v);
    var _ :- Need(KeysWithin(top, TOP_KEYS));
    var version :- Utf8Field(top, "v");
    var _ :- Need(version == VERSION);
    var domain :- Utf8Field(top, "domain");
    var _ :- Need(requested == [] || domain == requested);
    var _ :- Need(Canonical(x, domain));
    var authority :- AuthorityField(x, top);
    var issued :- LongField(top, "issued_at");
    var expires :- LongField(top, "expires_at");
    var key :- ParsedKey(x, Get(top, "key"), domain);
    Ok(Manifest(version, domain, FromUnix(issued), FromUnix(expires), key, authority))
  }

  /** ParseCanonical: the repacked object must be the bytes received. */
  function Parsed(x: Primitives, raw: Bytes, requested: Bytes): Result<Manifest> {
    var _ :- Need(0 < |raw| <= MAX_BODY_BYTES);
    var v := x.unpack(raw);
    var _ :- Need(v.Some?);
    var m :- ParsedFields(x, v.value, requested);
    var again :- Packed(x, m);
    var _ :- Need(again == raw);
    Ok(m)
  }

  function ManifestIDOf(x: Primitives, canonical: Bytes): Bytes {
    x.sha256(canonical)
  }

  // --- the loops -----------------------------------------------------------------

  /** Pack, with the loops that check and collect the authority list. */
  method PackManifest(x: Primitives, m: Manifest) returns (r: Result<Bytes>)
    ensures r == Packed(x, m)
  {
    if m.version != VERSION || m.domain == [] || !Canonical(x, m.domain)
       || |m.authority| > MAX_AUTHORITY_ENTRIES {
      return Err;
    }
    for i := 0 to |m.authority|
      invariant forall j :: 0 <= j < i ==> Canonical(x, m.authority[j])
    {
      if !Canonical(x, m.authority[i]) {
        return Err;
      }
    }
    var kid := KeyIDOf(x, m.domain, m.key.algorithm, m.key.encryption, m.key.publicKey);
    if kid != Ok(m.key.kid) {
      return Err;
    }
    var list: seq<Value> := [];
    for i := 0 to |m.authority|
      invariant list == Texts(m.authority[..i])
    {
      list := list + [Str(m.authority[i])];
    }
    assert m.authority[..|m.authority|] == m.authority;
    var top := [Entry("domain", Str(m.domain)), Entry("expires_at", Int(Unix(m.expiresAt))),
                Entry("issued_at", Int(Unix(m.issuedAt))), Entry("key", Map(KeyEntries(m.key))),
                Entry("v", Str(m.version))];
    if |list| > 0 {
      top := [Entry("authority", List(list))] + top;
    }
    assert top == TopEntries(m);
    return Ok(Pack(Map(top)));
  }

  /** boundedKeys: the scan for a field outside the schema. */
  method BoundedKeys(es: seq<Entry>, allowed: set<Bytes>) returns (ok: bool)
    ensures ok <==> KeysWithin(es, allowed)
  {
    for i := 0 to |es|
      invariant KeysWithin(es[..i], allowed)
    {
      if es[i].key !in allowed {
        return false;
      }
      assert es[..i + 1] == es[..i] + [es[i]];
    }
    assert es[..|es|] == es;
    return true;
  }

  /** authorityField: at most four canonical domains, or absent. */
  method ReadAuthority(x: Primitives, top: seq<Entry>) returns (r: Result<seq<Bytes>>)
    ensures r == AuthorityField(x, top)
  {
    var v := Get(top, "authority");
    if v.Nil? {
      return Ok([]);
    }
    if !v.List? || v.items == [] || |v.items| > MAX_AUTHORITY_ENTRIES {
      return Err;
    }
    var out: seq<Bytes> := [];
    for i := 0 to |v.items|
      invariant |out| == i
      invariant forall j :: 0 <= j < i ==> v.items[j].Str? && Canonical(x, v.items[j].s) && out[j] == v.items[j].s
    {
      if !v.items[i].Str? || !Canonical(x, v.items[i].s) {
        return Err;
      }
      out := out + [v.items[i].s];
    }
    assert out == TextsOf(v.items);
    return Ok(out);
  }
}
