/** What a stored or served chain says after it is read back. */
module ChainCodecProofs {
  import opened Bytes
  import opened Options
  import opened MsgPack
  import opened MsgPackProofs
  import opened Fields
  import opened Clock
  import opened Mailkey
  import opened Manifests
  import opened Identity
  import opened ChainWalk
  import opened SigningInputs
  import opened ChainCodec

  lemma HeadSorted(s: Statement)
    ensures var a := HeadEntries(s); Sorted(a) && a != [] && a[|a| - 1].key == "new_pk"
  {
    var m := HeadEntries(s);
    LessBy("created_at", "domain", 0); LessBy("domain", "expires_at", 0); LessBy("expires_at", "new_alg", 0);
    LessBy("new_alg", "new_fp", 4); LessBy("new_fp", "new_pk", 4);
    SortedOf6(m[0], m[1], m[2], m[3], m[4], m[5]);
  }

  lemma MiddleSorted(s: Statement)
    ensures var a := MiddleEntries(s); Sorted(a) && a != [] && a[0].key == "not_before" && a[|a| - 1].key == "old_fp"
  {
    LessBy("not_before", "old_fp", 0);
  }

  lemma TailSorted(s: Statement)
    ensures var a := TailEntries(s); Sorted(a) && a != [] && a[0].key == "reason"
  {
    LessBy("reason", "type", 0); LessBy("type", "version", 0);
  }

  /** The order across the seams, where the optional signatures stand or are missing. */
  lemma NewSeam()
    ensures Less("new_pk", "new_signature") && Less("new_signature", "not_before") && Less("new_pk", "not_before")
  {
    LessBy("new_pk", "new_signature", 4); LessBy("new_signature", "not_before", 1); LessBy("new_pk", "not_before", 1);
  }

  lemma OldSeam()
    ensures Less("old_fp", "old_signature") && Less("old_signature", "reason") && Less("old_fp", "reason")
  {
    LessBy("old_fp", "old_signature", 4); LessBy("old_signature", "reason", 0); LessBy("old_fp", "reason", 0);
  }

  predicate Optional(es: seq<Entry>, key: Bytes) {
    es == [] || (|es| == 1 && es[0].key == key)
  }

  lemma OptionalJoin(a: seq<Entry>, o: seq<Entry>, b: seq<Entry>, key: Bytes)
    requires a != [] && b != [] && Optional(o, key) && Sorted(a) && Sorted(b)
    requires Less(a[|a| - 1].key, key) && Less(key, b[0].key) && Less(a[|a| - 1].key, b[0].key)
    ensures var all := a + (o + b); Sorted(all) && all != [] && all[0] == a[0]
  {
    SortedJoin(o, b);
    SortedJoin(a, o + b);
  }

  /** An optional signature between two runs whose neighbouring keys are given. */
  lemma OptionalSignature(a: seq<Entry>, sig: Bytes, b: seq<Entry>, last: Bytes, key: Bytes, first: Bytes)
    requires a != [] && b != [] && Sorted(a) && Sorted(b) && a[|a| - 1].key == last && b[0].key == first
    requires Less(last, key) && Less(key, first) && Less(last, first)
    ensures var all := a + (SignatureEntry(key, sig) + b); Sorted(all) && all != [] && all[0] == a[0]
  {
    OptionalJoin(a, SignatureEntry(key, sig), b, key);
  }

  function LateEntries(s: Statement): seq<Entry> {
    MiddleEntries(s) + (SignatureEntry("old_signature", s.oldSignature) + TailEntries(s))
  }

  lemma LateSorted(s: Statement)
    ensures var b := LateEntries(s); Sorted(b) && b != [] && b[0].key == "not_before"
  {
    MiddleSorted(s);
    TailSorted(s);
    OldSeam();
    OptionalSignature(MiddleEntries(s), s.oldSignature, TailEntries(s), "old_fp", "old_signature", "reason");
  }

  lemma StatementSorted(s: Statement)
    ensures Sorted(StatementEntries(s))
  {
    HeadSorted(s);
    LateSorted(s);
    NewSeam();
    OptionalJoin(HeadEntries(s), SignatureEntry("new_signature", s.newSignature), LateEntries(s), "new_signature");
  }

  lemma HeadLookups(s: Statement)
    ensures var m := StatementEntries(s);
      && Get(m, "created_at") == Int(Unix(s.createdAt)) && Get(m, "domain") == Str(s.domain)
      && Get(m, "expires_at") == Int(Unix(s.expiresAt)) && Get(m, "new_alg") == Str(s.newAlg)
      && Get(m, "new_fp") == Bin(s.newFP) && Get(m, "new_pk") == Bin(s.newPK)
  {
    var m := StatementEntries(s);
    StatementSorted(s);
    assert m[..6] == HeadEntries(s);
    GetAt(m, 0); GetAt(m, 1); GetAt(m, 2); GetAt(m, 3); GetAt(m, 4); GetAt(m, 5);
  }

  lemma MiddleLookups(s: Statement)
    ensures var m := StatementEntries(s);
      && Get(m, "not_before") == Int(Unix(s.notBefore)) && Get(m, "old_fp") == Bin(s.oldFP)
  {
    var m, n := StatementEntries(s), 6 + |SignatureEntry("new_signature", s.newSignature)|;
    StatementSorted(s);
    assert m[n] == MiddleEntries(s)[0] && m[n + 1] == MiddleEntries(s)[1];
    GetAt(m, n); GetAt(m, n + 1);
  }

  lemma TailLookups(s: Statement)
    ensures var m := StatementEntries(s);
      && Get(m, "reason") == Str(s.reason) && Get(m, "type") == Str(s.kind) && Get(m, "version") == Str(s.version)
  {
    var m, n := StatementEntries(s), |StatementEntries(s)| - 3;
    StatementSorted(s);
    assert m[n..] == TailEntries(s);
    assert m[n] == m[n..][0] && m[n + 1] == m[n..][1] && m[n + 2] == m[n..][2];
    GetAt(m, n); GetAt(m, n + 1); GetAt(m, n + 2);
  }

  /** An empty signature is not written, and its absence is read back as empty. */
  lemma NewSignatureLookup(s: Statement)
    ensures SignatureField(StatementEntries(s), "new_signature") == Ok(s.newSignature)
  {
    var m := StatementEntries(s);
    StatementSorted(s);
    NewSeam();
    assert m[5] == HeadEntries(s)[5];
    if s.newSignature == [] {
      assert m[6] == MiddleEntries(s)[0];
      SortedGap(m, 6, "new_signature");
    } else {
      assert m[6] == Entry("new_signature", Bin(s.newSignature));
      GetAt(m, 6);
    }
  }

  lemma OldSignatureLookup(s: Statement)
    ensures SignatureField(StatementEntries(s), "old_signature") == Ok(s.oldSignature)
  {
    var m, n := StatementEntries(s), 8 + |SignatureEntry("new_signature", s.newSignature)|;
    StatementSorted(s);
    OldSeam();
    assert m[n - 1] == MiddleEntries(s)[1];
    if s.oldSignature == [] {
      assert m[n] == TailEntries(s)[0];
      SortedGap(m, n, "old_signature");
    } else {
      assert m[n] == Entry("old_signature", Bin(s.oldSignature));
      GetAt(m, n);
    }
  }

  lemma WithinJoin(a: seq<Entry>, b: seq<Entry>, keys: set<Bytes>)
    requires KeysWithin(a, keys) && KeysWithin(b, keys)
    ensures KeysWithin(a + b, keys)
  {
  }

  lemma StatementKeysWithin(s: Statement)
    ensures KeysWithin(StatementEntries(s), STATEMENT_KEYS)
  {
    var sig, late := SignatureEntry("old_signature", s.oldSignature), LateEntries(s);
    WithinJoin(sig, TailEntries(s), STATEMENT_KEYS);
    WithinJoin(MiddleEntries(s), sig + TailEntries(s), STATEMENT_KEYS);
    WithinJoin(SignatureEntry("new_signature", s.newSignature), late, STATEMENT_KEYS);
    WithinJoin(HeadEntries(s), SignatureEntry("new_signature", s.newSignature) + late, STATEMENT_KEYS);
  }

  /** What survives storage: everything, with times cut to whole seconds. */
  function Truncate(t: Time): Time { FromUnix(Unix(t)) }

  function Stored(s: Statement): Statement {
    s.(notBefore := Truncate(s.notBefore), createdAt := Truncate(s.createdAt), expiresAt := Truncate(s.expiresAt))
  }

  lemma StatementRoundTrip(s: Statement)
    requires FitsWire(s)
    ensures UnpackStatement(Map(StatementEntries(s))) == Ok(Stored(s))
  {
    HeadLookups(s);
    MiddleLookups(s);
    TailLookups(s);
    NewSignatureLookup(s);
    OldSignatureLookup(s);
    StatementKeysWithin(s);
  }

  ghost predicate Fits(e: Entry) {
    |e.key| < 0x1_0000_0000 && Packable(e.val) && KeysSorted(e.val)
  }

  lemma StatementPackable(s: Statement)
    requires FitsWire(s)
    ensures Packable(Map(StatementEntries(s))) && KeysSorted(Map(StatementEntries(s)))
  {
    var m := StatementEntries(s);
    StatementSorted(s);
    assert forall i :: 0 <= i < |HeadEntries(s)| ==> Fits(HeadEntries(s)[i]);
    assert forall i :: 0 <= i < |LateEntries(s)| ==> Fits(LateEntries(s)[i]);
    assert forall i :: 0 <= i < |m| ==> Fits(m[i]);
  }

  function StoredAll(chain: seq<Statement>): (r: seq<Statement>)
    ensures |r| == |chain| && forall i :: 0 <= i < |r| ==> r[i] == Stored(chain[i])
  {
    seq(|chain|, i requires 0 <= i < |chain| => Stored(chain[i]))
  }

  lemma {:induction false} StatementsRoundTrip(chain: seq<Statement>)
    requires forall i :: 0 <= i < |chain| ==> FitsWire(chain[i])
    ensures UnpackStatements(StatementValues(chain)) == Ok(StoredAll(chain))
  {
    if chain != [] {
      StatementRoundTrip(chain[0]);
      StatementsRoundTrip(chain[1..]);
      assert StatementValues(chain)[1..] == StatementValues(chain[1..]);
      assert StoredAll(chain) == [Stored(chain[0])] + StoredAll(chain[1..]);
    }
  }

  lemma ChainPackable(chain: seq<Statement>)
    requires |chain| <= MAX_CHAIN_ENTRIES && forall i :: 0 <= i < |chain| ==> FitsWire(chain[i])
    ensures Packable(List(StatementValues(chain))) && KeysSorted(List(StatementValues(chain)))
  {
    forall i | 0 <= i < |chain| ensures Packable(StatementValues(chain)[i]) && KeysSorted(StatementValues(chain)[i]) {
      StatementPackable(chain[i]);
    }
  }

  /** Reading back a stored chain gives the chain, times cut to whole seconds. */
  lemma ChainRoundTrip(x: Primitives, chain: seq<Statement>)
    requires Sound(x) && forall i :: 0 <= i < |chain| ==> FitsWire(chain[i])
    requires PackedChain(chain).Ok? && |PackedChain(chain).value| <= MAX_CHAIN_BYTES
    ensures ParsedChain(x, PackedChain(chain).value) == Ok(StoredAll(chain))
  {
    ChainPackable(chain);
    StatementsRoundTrip(chain);
  }

  predicate WholeStatement(s: Statement) {
    WholeSeconds(s.notBefore) && WholeSeconds(s.createdAt) && WholeSeconds(s.expiresAt)
  }

  /** A chain of whole-second statements is stored exactly, the zero expiry included; so every
      later walk of it is the walk of the original. */
  lemma WholeChainRoundTrip(x: Primitives, chain: seq<Statement>, pin: Bytes, pinPK: Bytes, now: Time)
    requires Sound(x) && forall i :: 0 <= i < |chain| ==> FitsWire(chain[i]) && WholeStatement(chain[i])
    requires PackedChain(chain).Ok? && |PackedChain(chain).value| <= MAX_CHAIN_BYTES
    ensures var r := ParsedChain(x, PackedChain(chain).value);
      r == Ok(chain) && Walk(x, pin, pinPK, r.value, now) == Walk(x, pin, pinPK, chain, now)
  {
    ChainRoundTrip(x, chain);
    forall i | 0 <= i < |chain| ensures StoredAll(chain)[i] == chain[i] {
      var s := chain[i];
      assert WholeStatement(s);
      FromUnixOfWhole(s.notBefore); FromUnixOfWhole(s.createdAt); FromUnixOfWhole(s.expiresAt);
    }
    assert StoredAll(chain) == chain;
  }

  /** Storage never costs a signature: sub-second parts are not signed. */
  lemma StoredVerifies(x: Primitives, s: Statement, oldPK: Bytes)
    ensures Verified(x, Stored(s), oldPK) == Verified(x, s, oldPK)
  {
    UnixRoundTrip(Unix(s.notBefore)); UnixRoundTrip(Unix(s.createdAt)); UnixRoundTrip(Unix(s.expiresAt));
    assert forall d :: SignedEntries(Stored(s), d) == SignedEntries(s, d);
  }

  // --- the served document -------------------------------------------------------------

  lemma DocHeadSorted(d: Doc)
    ensures var a := DocHead(d); Sorted(a) && a != [] && a[|a| - 1].key == "alg"
  {
    LessBy("active_fp", "active_pk", 7); LessBy("active_pk", "alg", 1);
  }

  lemma DocTailSorted(d: Doc, dom: Bytes)
    ensures var a := DocTail(d, dom); Sorted(a) && a != [] && a[0].key == "chain"
  {
    var m := DocTail(d, dom);
    LessBy("chain", "domain", 0); LessBy("domain", "status", 0); LessBy("status", "type", 0);
    LessBy("type", "updated_at", 0); LessBy("updated_at", "version", 0);
    SortedOf6(m[0], m[1], m[2], m[3], m[4], m[5]);
  }

  lemma DocSorted(d: Doc, dom: Bytes)
    ensures Sorted(DocEntries(d, dom))
  {
    DocHeadSorted(d);
    DocTailSorted(d, dom);
    LessBy("alg", "authority", 1); LessBy("authority", "chain", 0); LessBy("alg", "chain", 0);
    OptionalJoin(DocHead(d), AuthorityEntry(d.authority), DocTail(d, dom), "authority");
  }

  lemma DocHeadLookups(d: Doc, dom: Bytes)
    ensures var m := DocEntries(d, dom);
      && Get(m, "active_fp") == Bin(d.activeFP) && Get(m, "active_pk") == Bin(d.activePK) && Get(m, "alg") == Str(ALG)
      && Get(m, "authority") == (if d.authority == [] then Nil else List(Texts(d.authority)))
  {
    var m := DocEntries(d, dom);
    DocSorted(d, dom);
    assert m[..3] == DocHead(d);
    GetAt(m, 0); GetAt(m, 1); GetAt(m, 2);
    LessBy("alg", "authority", 1); LessBy("authority", "chain", 0);
    if d.authority == [] {
      assert m[3] == DocTail(d, dom)[0];
      SortedGap(m, 3, "authority");
    } else {
      assert m[3] == AuthorityEntry(d.authority)[0];
      GetAt(m, 3);
    }
  }

  lemma DocTailLookups(d: Doc, dom: Bytes)
    ensures var m := DocEntries(d, dom);
      && Get(m, "chain") == List(StatementValues(d.chain)) && Get(m, "domain") == Str(dom)
      && Get(m, "status") == Str(d.status) && Get(m, "type") == Str(DOC_TYPE)
      && Get(m, "updated_at") == Int(Unix(d.updatedAt)) && Get(m, "version") == Str(VERSION)
  {
    var m, n := DocEntries(d, dom), 3 + |AuthorityEntry(d.authority)|;
    DocSorted(d, dom);
    assert m[n..] == DocTail(d, dom);
    assert forall i :: 0 <= i < 6 ==> m[n + i] == m[n..][i];
    GetAt(m, n); GetAt(m, n + 1); GetAt(m, n + 2); GetAt(m, n + 3); GetAt(m, n + 4); GetAt(m, n + 5);
  }

  lemma DocKeysWithin(d: Doc, dom: Bytes)
    ensures KeysWithin(DocEntries(d, dom), DOC_KEYS)
  {
    WithinJoin(AuthorityEntry(d.authority), DocTail(d, dom), DOC_KEYS);
    WithinJoin(DocHead(d), AuthorityEntry(d.authority) + DocTail(d, dom), DOC_KEYS);
  }

  lemma DocPackable(x: Primitives, d: Doc, dom: Bytes)
    requires Sound(x) && AuthorityOk(x, d.authority) && IsDomain(dom) && |d.status| < 0x1_0000_0000
    requires |d.activeFP| == HASH_LENGTH && |d.activePK| == PUBLIC_KEY_LENGTH && IsInt64(Unix(d.updatedAt))
    requires |d.chain| <= MAX_CHAIN_ENTRIES && forall i :: 0 <= i < |d.chain| ==> FitsWire(d.chain[i])
    ensures Packable(Map(DocEntries(d, dom))) && KeysSorted(Map(DocEntries(d, dom)))
  {
    DocSorted(d, dom);
    ChainPackable(d.chain);
    forall i | 0 <= i < |d.authority| ensures |d.authority[i]| <= 253 {
      assert Canonical(x, d.authority[i]);
    }
    assert forall i :: 0 <= i < |d.authority| ==> Packable(Texts(d.authority)[i]) && KeysSorted(Texts(d.authority)[i]);
    var m := DocEntries(d, dom);
    assert forall i :: 0 <= i < |DocTail(d, dom)| ==> Fits(DocTail(d, dom)[i]);
    assert forall i :: 0 <= i < |AuthorityEntry(d.authority)| ==> Fits(AuthorityEntry(d.authority)[i]);
    assert forall i :: 0 <= i < |m| ==> Fits(m[i]);
  }

  lemma DocAuthorityRoundTrip(x: Primitives, d: Doc, dom: Bytes)
    requires AuthorityOk(x, d.authority)
    ensures AuthorityField(x, DocEntries(d, dom)) == Ok(d.authority)
  {
    DocHeadLookups(d, dom);
    if d.authority != [] {
      assert TextsOf(Texts(d.authority)) == d.authority;
    }
  }

  /** What the parser makes of each part of a published document. */
  lemma DocParts(x: Primitives, d: Doc, dom: Bytes)
    requires x.normalize(d.domain) == Ok(dom) && Canonical(x, dom) && AuthorityOk(x, d.authority)
    requires FingerprintOf(x, d.domain, d.activePK) == Ok(d.activeFP) && IsInt64(Unix(d.updatedAt))
    requires |d.chain| <= MAX_CHAIN_ENTRIES && forall i :: 0 <= i < |d.chain| ==> FitsWire(d.chain[i])
    ensures var m := DocEntries(d, dom);
      && DocHeadOk(m, dom) == Ok(()) && AuthorityField(x, m) == Ok(d.authority)
      && Utf8Field(m, "status") == Ok(d.status) && LongField(m, "updated_at") == Ok(Unix(d.updatedAt))
      && ParsedDocKey(x, m, dom) == Ok(DocKey(d.activeFP, d.activePK)) && DocChain(m) == Ok(StoredAll(d.chain))
  {
    DocHeadLookups(d, dom);
    DocTailLookups(d, dom);
    DocKeysWithin(d, dom);
    DocAuthorityRoundTrip(x, d, dom);
    StatementsRoundTrip(d.chain);
  }

  /** A published document reads back as itself, for the domain it was fetched for. */
  lemma DocRoundTrip(x: Primitives, d: Doc)
    requires Sound(x) && PackedDoc(x, d).Ok? && |PackedDoc(x, d).value| <= MAX_CHAIN_BYTES
    requires FingerprintOf(x, d.domain, d.activePK) == Ok(d.activeFP)
    requires |d.status| < 0x1_0000_0000 && IsInt64(Unix(d.updatedAt))
    requires forall i :: 0 <= i < |d.chain| ==> FitsWire(d.chain[i])
    ensures ParsedDoc(x, d.domain, PackedDoc(x, d).value) ==
      Ok(d.(domain := x.normalize(d.domain).value, updatedAt := Truncate(d.updatedAt), chain := StoredAll(d.chain)))
  {
    var dom := x.normalize(d.domain).value;
    DocPackable(x, d, dom);
    DocParts(x, d, dom);
  }

  lemma DocChainLength(m: seq<Entry>)
    requires DocChain(m).Ok?
    ensures |DocChain(m).value| <= MAX_CHAIN_ENTRIES
  {
    var v := Get(m, "chain");
    if v.List? { UnpackedLength(v.items); }
  }

  /** A document is believed only for the caller's domain and only with a key that produces its
      fingerprint: one lifted from another domain's endpoint is refused. */
  lemma DocNamesItsKey(x: Primitives, domain: Bytes, raw: Bytes)
    requires Sound(x) && ParsedDoc(x, domain, raw).Ok?
    ensures var d := ParsedDoc(x, domain, raw).value;
      && x.normalize(domain) == Ok(d.domain)
      && FingerprintOf(x, domain, d.activePK) == Ok(d.activeFP)
      && |d.chain| <= MAX_CHAIN_ENTRIES
  {
    DocChainLength(AsMap(x.unpack(raw).value).value);
  }

  lemma {:induction false} UnpackedLength(vs: seq<Value>)
    requires UnpackStatements(vs).Ok?
    ensures |UnpackStatements(vs).value| == |vs|
  {
    if vs != [] { UnpackedLength(vs[1..]); }
  }
}
