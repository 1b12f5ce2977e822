/** Accepted byte strings and well-formed manifests are in bijection. */
module ManifestProofs {
  import opened Bytes
  import opened Options
  import opened MsgPack
  import opened MsgPackProofs
  import opened Fields
  import opened Clock
  import opened Mailkey
  import opened Manifests

  lemma KeySorted(k: KeyDescriptor)
    ensures Sorted(KeyEntries(k))
  {
    var m := KeyEntries(k);
    LessBy("alg", "enc", 0); LessBy("enc", "kid", 0); LessBy("kid", "pk", 0);
    SortedOf4(m[0], m[1], m[2], m[3]);
  }

  /** The entries Pack writes are in bytewise key order, with and without the authority list. */
  lemma TopSorted(m: Manifest)
    ensures Sorted(TopEntries(m))
  {
    var b := TopEntries(m)[|AuthorityEntry(m.authority)|..];
    LessBy("domain", "expires_at", 0); LessBy("expires_at", "issued_at", 0);
    LessBy("issued_at", "key", 0); LessBy("key", "v", 0); LessBy("authority", "domain", 0);
    SortedOf5(b[0], b[1], b[2], b[3], b[4]);
    assert b == [b[0], b[1], b[2], b[3], b[4]];
    SortedJoin(AuthorityEntry(m.authority), b);
  }

  lemma KeySize(k: KeyDescriptor)
    requires SuiteOk(k.algorithm, k.encryption, k.publicKey) && |k.kid| == HASH_LENGTH
    ensures Packable(Map(KeyEntries(k))) && KeysSorted(Map(KeyEntries(k))) && |Pack(Map(KeyEntries(k)))| <= 300
  {
    var es := KeyEntries(k);
    KeySorted(k);
    forall i | 0 <= i < |es| ensures |es[i].key| + |Pack(es[i].val)| <= 60 {
      LeafSize(es[i].val);
    }
    EntriesSize(es, 60);
  }

  lemma AuthoritySize(x: Primitives, authority: seq<Bytes>)
    requires Sound(x) && AuthorityOk(x, authority)
    ensures var v := List(Texts(authority)); Packable(v) && KeysSorted(v) && |Pack(v)| <= 1100
  {
    var items := Texts(authority);
    forall i | 0 <= i < |items| ensures |Pack(items[i])| <= 258 && Packable(items[i]) {
      assert Canonical(x, authority[i]);
      LeafSize(items[i]);
    }
    ItemsSize(items, 258);
  }

  ghost predicate Small(e: Entry) {
    |e.key| < 11 && Packable(e.val) && KeysSorted(e.val) && |Pack(e.val)| <= 1100
  }

  lemma TextSmall(key: Bytes, s: Bytes)
    requires |key| < 11 && |s| <= 253
    ensures Small(Entry(key, Str(s)))
  {
    LeafSize(Str(s));
  }

  lemma LongSmall(key: Bytes, n: int)
    requires |key| < 11 && IsInt64(n)
    ensures Small(Entry(key, Int(n)))
  {
    LeafSize(Int(n));
  }

  lemma KeySmall(k: KeyDescriptor)
    requires SuiteOk(k.algorithm, k.encryption, k.publicKey) && |k.kid| == HASH_LENGTH
    ensures Small(Entry("key", Map(KeyEntries(k))))
  {
    KeySize(k);
  }

  lemma AuthoritySmall(x: Primitives, authority: seq<Bytes>)
    requires Sound(x) && AuthorityOk(x, authority)
    ensures forall i :: 0 <= i < |AuthorityEntry(authority)| ==> Small(AuthorityEntry(authority)[i])
  {
    AuthoritySize(x, authority);
  }

  /** What a manifest that packs has in its fields. */
  lemma PackedFields(x: Primitives, m: Manifest)
    requires Sound(x) && Packed(x, m).Ok?
    ensures |m.domain| <= 253 && |m.version| <= 253 && AuthorityOk(x, m.authority)
    ensures SuiteOk(m.key.algorithm, m.key.encryption, m.key.publicKey) && |m.key.kid| == HASH_LENGTH
  {
    assert Canonical(x, m.domain);
  }

  lemma AllSmall(a: seq<Entry>, e0: Entry, e1: Entry, e2: Entry, e3: Entry, e4: Entry)
    requires forall i :: 0 <= i < |a| ==> Small(a[i])
    requires Small(e0) && Small(e1) && Small(e2) && Small(e3) && Small(e4)
    ensures var es := a + [e0, e1, e2, e3, e4]; forall i :: 0 <= i < |es| ==> Small(es[i])
  {
  }

  lemma TopEntriesSmall(x: Primitives, m: Manifest)
    requires Sound(x) && Packed(x, m).Ok? && WholeSeconds(m.issuedAt) && WholeSeconds(m.expiresAt)
    ensures forall i :: 0 <= i < |TopEntries(m)| ==> Small(TopEntries(m)[i])
  {
    PackedFields(x, m);
    KeySmall(m.key);
    AuthoritySmall(x, m.authority);
    TextSmall("domain", m.domain); TextSmall("v", m.version);
    LongSmall("expires_at", Unix(m.expiresAt)); LongSmall("issued_at", Unix(m.issuedAt));
    AllSmall(AuthorityEntry(m.authority), Entry("domain", Str(m.domain)), Entry("expires_at", Int(Unix(m.expiresAt))),
             Entry("issued_at", Int(Unix(m.issuedAt))), Entry("key", Map(KeyEntries(m.key))), Entry("v", Str(m.version)));
  }

  lemma SmallMapSize(es: seq<Entry>)
    requires |es| <= 6 && Sorted(es) && forall i :: 0 <= i < |es| ==> Small(es[i])
    ensures Packable(Map(es)) && KeysSorted(Map(es)) && |Pack(Map(es))| <= MAX_BODY_BYTES
  {
    EntriesSize(es, 1111);
  }

  /** A canonical manifest is far below the body limit, so the limit never refuses one. */
  lemma PackedSize(x: Primitives, m: Manifest)
    requires Sound(x) && Packed(x, m).Ok? && WholeSeconds(m.issuedAt) && WholeSeconds(m.expiresAt)
    ensures var v := Map(TopEntries(m)); Packable(v) && KeysSorted(v) && |Packed(x, m).value| <= MAX_BODY_BYTES
  {
    TopSorted(m);
    TopEntriesSmall(x, m);
    SmallMapSize(TopEntries(m));
  }

  lemma TopLookups(m: Manifest)
    ensures var top := TopEntries(m);
      && Get(top, "domain") == Str(m.domain) && Get(top, "v") == Str(m.version)
      && Get(top, "issued_at") == Int(Unix(m.issuedAt)) && Get(top, "expires_at") == Int(Unix(m.expiresAt))
      && Get(top, "key") == Map(KeyEntries(m.key))
      && Get(top, "authority") == (if m.authority == [] then Nil else List(Texts(m.authority)))
    ensures KeysWithin(TopEntries(m), TOP_KEYS)
  {
    var top := TopEntries(m);
    var n := |AuthorityEntry(m.authority)|;
    TopSorted(m);
    GetAt(top, n); GetAt(top, n + 1); GetAt(top, n + 2); GetAt(top, n + 3); GetAt(top, n + 4);
    if n == 1 {
      GetAt(top, 0);
    } else {
      assert |"authority"| == 9;
      GetAbsent(top, "authority");
    }
  }

  lemma KeyLookups(k: KeyDescriptor)
    ensures var key := KeyEntries(k);
      && Get(key, "alg") == Str(k.algorithm) && Get(key, "enc") == Str(k.encryption)
      && Get(key, "kid") == Bin(k.kid) && Get(key, "pk") == Bin(k.publicKey)
  {
    var key := KeyEntries(k);
    KeySorted(k);
    GetAt(key, 0); GetAt(key, 1); GetAt(key, 2); GetAt(key, 3);
  }

  lemma AuthorityRoundTrip(x: Primitives, m: Manifest)
    requires AuthorityOk(x, m.authority)
    ensures AuthorityField(x, TopEntries(m)) == Ok(m.authority)
  {
    TopLookups(m);
    if m.authority != [] {
      assert TextsOf(Texts(m.authority)) == m.authority;
    }
  }

  lemma KeyRoundTrip(x: Primitives, m: Manifest)
    requires Sound(x) && Packed(x, m).Ok?
    ensures ParsedKey(x, Map(KeyEntries(m.key)), m.domain) == Ok(m.key)
  {
    KeyLookups(m.key);
  }

  lemma FieldsRoundTrip(x: Primitives, m: Manifest, requested: Bytes)
    requires Sound(x) && Packed(x, m).Ok? && WholeSeconds(m.issuedAt) && WholeSeconds(m.expiresAt)
    requires requested == [] || m.domain == requested
    ensures ParsedFields(x, Map(TopEntries(m)), requested) == Ok(m)
  {
    TopLookups(m);
    AuthorityRoundTrip(x, m);
    KeyRoundTrip(x, m);
    FromUnixOfWhole(m.issuedAt);
    FromUnixOfWhole(m.expiresAt);
  }

  /** What a successful parse entails needs no property of the reader: the repack forces it. */
  lemma ParsedSound(x: Primitives, raw: Bytes, requested: Bytes)
    requires Parsed(x, raw, requested).Ok?
    ensures var m := Parsed(x, raw, requested).value;
      && Packed(x, m) == Ok(raw) && WholeSeconds(m.issuedAt) && WholeSeconds(m.expiresAt)
      && (requested == [] || m.domain == requested)
  {
    var top := AsMap(x.unpack(raw).value).value;
    UnixRoundTrip(LongField(top, "issued_at").value);
    UnixRoundTrip(LongField(top, "expires_at").value);
  }

  lemma ParsedComplete(x: Primitives, m: Manifest, requested: Bytes)
    requires Sound(x) && Packed(x, m).Ok? && WholeSeconds(m.issuedAt) && WholeSeconds(m.expiresAt)
    requires requested == [] || m.domain == requested
    ensures Parsed(x, Packed(x, m).value, requested) == Ok(m)
  {
    PackedSize(x, m);
    FieldsRoundTrip(x, m, requested);
  }

  /** The canonical form: parsing succeeds with `m` exactly on the bytes `m` packs to. */
  lemma CanonicalIff(x: Primitives, raw: Bytes, requested: Bytes, m: Manifest)
    requires Sound(x)
    ensures Parsed(x, raw, requested) == Ok(m) <==>
      && Packed(x, m) == Ok(raw)
      && WholeSeconds(m.issuedAt) && WholeSeconds(m.expiresAt)
      && (requested == [] || m.domain == requested)
  {
    if Parsed(x, raw, requested) == Ok(m) {
      ParsedSound(x, raw, requested);
    } else if && Packed(x, m) == Ok(raw) && WholeSeconds(m.issuedAt) && WholeSeconds(m.expiresAt)
              && (requested == [] || m.domain == requested) {
      ParsedComplete(x, m, requested);
    }
  }

  /** Pack is injective on manifests with whole-second times. */
  lemma PackInjective(x: Primitives, a: Manifest, b: Manifest)
    requires Sound(x) && Packed(x, a).Ok? && Packed(x, a) == Packed(x, b)
    requires WholeSeconds(a.issuedAt) && WholeSeconds(a.expiresAt)
    requires WholeSeconds(b.issuedAt) && WholeSeconds(b.expiresAt)
    ensures a == b
  {
    var raw := Packed(x, a).value;
    CanonicalIff(x, raw, [], a);
    CanonicalIff(x, raw, [], b);
  }
}
