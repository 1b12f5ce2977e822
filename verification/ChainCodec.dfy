/** Storing a statement list and serving the identity document (identity/resource.go). */
module ChainCodec {
  import opened Bytes
  import opened Options
  import opened MsgPack
  import opened Fields
  import opened Clock
  import opened Mailkey
  import opened Manifests
  import opened Identity
  import opened ChainWalk

  const MAX_CHAIN_BYTES := 0x1_0000
  const DOC_TYPE: Bytes := "mailkey-identity-doc-v1"

  function SignatureEntry(key: Bytes, sig: Bytes): seq<Entry> {
    if sig == [] then [] else [Entry(key, Bin(sig))]
  }

  function HeadEntries(s: Statement): seq<Entry> {
    [Entry("created_at", Int(Unix(s.createdAt))), Entry("domain", Str(s.domain)),
     Entry("expires_at", Int(Unix(s.expiresAt))), Entry("new_alg", Str(s.newAlg)),
     Entry("new_fp", Bin(s.newFP)), Entry("new_pk", Bin(s.newPK))]
  }

  function MiddleEntries(s: Statement): seq<Entry> {
    [Entry("not_before", Int(Unix(s.notBefore))), Entry("old_fp", Bin(s.oldFP))]
  }

  function TailEntries(s: Statement): seq<Entry> {
    [Entry("reason", Str(s.reason)), Entry("type", Str(s.kind)), Entry("version", Str(s.version))]
  }

  /** packStatement: every field, in key order; a signature only when there is one. */
  function StatementEntries(s: Statement): seq<Entry> {
    HeadEntries(s) + (SignatureEntry("new_signature", s.newSignature)
      + (MiddleEntries(s) + (SignatureEntry("old_signature", s.oldSignature) + TailEntries(s))))
  }

  const STATEMENT_KEYS: set<Bytes> :=
    {"type", "version", "domain", "old_fp", "new_fp", "new_alg", "new_pk", "not_before", "created_at",
     "expires_at", "reason", "old_signature", "new_signature"}

  /** An optional signature: present by key membership, and then it must be raw bytes. */
  function SignatureField(m: seq<Entry>, key: Bytes): Result<Bytes> {
    if Has(m, key) then RawField(m, key) else Ok([])
  }

  function UnpackStatement(v: Value): Result<Statement> {
    var m :- AsMap(v);
    var _ :- Need(KeysWithin(m, STATEMENT_KEYS));
    var kind :- Utf8Field(m, "type");
    var version :- Utf8Field(m, "version");
    var domain :- Utf8Field(m, "domain");
    var newAlg :- Utf8Field(m, "new_alg");
    var reason :- Utf8Field(m, "reason");
    var oldFP :- RawField(m, "old_fp");
    var newFP :- RawField(m, "new_fp");
    var _ :- Need(|oldFP| == HASH_LENGTH && |newFP| == HASH_LENGTH);
    var newPK :- RawField(m, "new_pk");
    var oldSig :- SignatureField(m, "old_signature");
    var newSig :- SignatureField(m, "new_signature");
    var nb :- LongField(m, "not_before");
    var ca :- LongField(m, "created_at");
    var ea :- LongField(m, "expires_at");
    Ok(Statement(kind, version, domain, oldFP, newFP, newAlg, newPK,
                 FromUnix(nb), FromUnix(ca), FromUnix(ea), reason, oldSig, newSig))
  }

  function StatementValues(chain: seq<Statement>): (vs: seq<Value>)
    ensures |vs| == |chain| && forall i :: 0 <= i < |chain| ==> vs[i] == Map(StatementEntries(chain[i]))
  {
    seq(|chain|, i requires 0 <= i < |chain| => Map(StatementEntries(chain[i])))
  }

  function UnpackStatements(vs: seq<Value>): Result<seq<Statement>> {
    if vs == [] then Ok([])
    else
      var s :- UnpackStatement(vs[0]);
      var rest :- UnpackStatements(vs[1..]);
      Ok([s] + rest)
  }

  function PackedChain(chain: seq<Statement>): Result<Bytes> {
    var _ :- Need(|chain| <= MAX_CHAIN_ENTRIES);
    Ok(Pack(List(StatementValues(chain))))
  }

  function ParsedChain(x: Primitives, raw: Bytes): Result<seq<Statement>> {
    if raw == [] then Ok([])
    else
      var _ :- Need(|raw| <= MAX_CHAIN_BYTES);
      var v := x.unpack(raw);
      var _ :- Need(v.Some? && v.value.List? && |v.value.items| <= MAX_CHAIN_ENTRIES);
      UnpackStatements(v.value.items)
  }

  // --- the loops ---------------------------------------------------------------------

  method CollectStatements(chain: seq<Statement>) returns (lst: seq<Value>)
    ensures lst == StatementValues(chain)
  {
    lst := [];
    for i := 0 to |chain|
      invariant lst == StatementValues(chain[..i])
    {
      lst := lst + [Map(StatementEntries(chain[i]))];
    }
    assert chain[..|chain|] == chain;
  }

  method PackChain(chain: seq<Statement>) returns (r: Result<Bytes>)
    ensures r == PackedChain(chain)
  {
    if |chain| > MAX_CHAIN_ENTRIES {
      return Err;
    }
    var lst := CollectStatements(chain);
    return Ok(Pack(List(lst)));
  }

  /** The statements read so far, followed by what the rest turns out to be. */
  function Joined(out: seq<Statement>, rest: Result<seq<Statement>>): Result<seq<Statement>> {
    var ss :- rest;
    Ok(out + ss)
  }

  lemma JoinedNothing(r: Result<seq<Statement>>)
    ensures Joined([], r) == r
  {
    if r.Ok? { assert [] + r.value == r.value; }
  }

  lemma UnpackNext(vs: seq<Value>, i: nat, out: seq<Statement>)
    requires i < |vs|
    ensures var s := UnpackStatement(vs[i]);
      Joined(out, UnpackStatements(vs[i..])) ==
        if s.Err? then Err else Joined(out + [s.value], UnpackStatements(vs[i + 1..]))
  {
    assert vs[i..][0] == vs[i] && vs[i..][1..] == vs[i + 1..];
    var s, rest := UnpackStatement(vs[i]), UnpackStatements(vs[i + 1..]);
    if s.Ok? && rest.Ok? {
      assert out + ([s.value] + rest.value) == out + [s.value] + rest.value;
    }
  }

  /** The reading loop: the first bad statement refuses the whole list. */
  method ReadStatements(entries: seq<Value>) returns (r: Result<seq<Statement>>)
    ensures r == UnpackStatements(entries)
  {
    var out: seq<Statement> := [];
    assert entries[0..] == entries && entries[|entries|..] == [];
    JoinedNothing(UnpackStatements(entries));
    for i := 0 to |entries|
      invariant UnpackStatements(entries) == Joined(out, UnpackStatements(entries[i..]))
    {
      UnpackNext(entries, i, out);
      var s := UnpackStatement(entries[i]);
      if s.Err? {
        return Err;
      }
      out := out + [s.value];
    }
    assert out + [] == out;
    return Ok(out);
  }

  method ParseChain(x: Primitives, raw: Bytes) returns (r: Result<seq<Statement>>)
    ensures r == ParsedChain(x, raw)
  {
    if raw == [] {
      return Ok([]);
    }
    if |raw| > MAX_CHAIN_BYTES {
      return Err;
    }
    var v := x.unpack(raw);
    if v.None? || !v.value.List? || |v.value.items| > MAX_CHAIN_ENTRIES {
      return Err;
    }
    r := ReadStatements(v.value.items);
  }

  // --- the served document -------------------------------------------------------------

  datatype Doc = Doc(
    domain: Bytes, activeFP: Bytes, activePK: Bytes, status: Bytes, updatedAt: Time,
    authority: seq<Bytes>, chain: seq<Statement>)

  const DOC_KEYS: set<Bytes> :=
    {"type", "version", "domain", "active_fp", "active_pk", "alg", "status", "updated_at", "chain", "authority"}

  function DocHead(d: Doc): seq<Entry> {
    [Entry("active_fp", Bin(d.activeFP)), Entry("active_pk", Bin(d.activePK)), Entry("alg", Str(ALG))]
  }

  function DocTail(d: Doc, dom: Bytes): seq<Entry> {
    [Entry("chain", List(StatementValues(d.chain))), Entry("domain", Str(dom)), Entry("status", Str(d.status)),
     Entry("type", Str(DOC_TYPE)), Entry("updated_at", Int(Unix(d.updatedAt))), Entry("version", Str(VERSION))]
  }

  function DocEntries(d: Doc, dom: Bytes): seq<Entry> {
    DocHead(d) + (AuthorityEntry(d.authority) + DocTail(d, dom))
  }

  function PackedDoc(x: Primitives, d: Doc): Result<Bytes> {
    var dom :- x.normalize(d.domain);
    var _ :- Need(|d.chain| <= MAX_CHAIN_ENTRIES && AuthorityOk(x, d.authority));
    Ok(Pack(Map(DocEntries(d, dom))))
  }

  /** The chain of a document; anything but a list reads as no chain at all. */
  function DocChain(m: seq<Entry>): Result<seq<Statement>> {
    var v := Get(m, "chain");
    if !v.List? then Ok([])
    else
      var _ :- Need(|v.items| <= MAX_CHAIN_ENTRIES);
      UnpackStatements(v.items)
  }

  datatype DocKey = DocKey(fp: Bytes, pk: Bytes)

  /** The active identity: the fingerprint is recomputed from the key, never taken. */
  function ParsedDocKey(x: Primitives, m: seq<Entry>, dom: Bytes): Result<DocKey> {
    var alg :- Utf8Field(m, "alg");
    var _ :- Need(alg == ALG);
    var pk :- RawField(m, "active_pk");
    var want :- FingerprintOf(x, dom, pk);
    var claimed :- RawField(m, "active_fp");
    var _ :- Need(claimed == want);
    Ok(DocKey(want, pk))
  }

  /** The document is of this kind, of this version, and for the caller's domain. */
  function DocHeadOk(m: seq<Entry>, dom: Bytes): Result<()> {
    var kind :- Utf8Field(m, "type");
    var version :- Utf8Field(m, "version");
    var named :- Utf8Field(m, "domain");
    Need(KeysWithin(m, DOC_KEYS) && kind == DOC_TYPE && version == VERSION && named == dom)
  }

  /** ParseDoc. */
  function ParsedDoc(x: Primitives, domain: Bytes, raw: Bytes): Result<Doc> {
    var _ :- Need(|raw| <= MAX_CHAIN_BYTES);
    var dom :- x.normalize(domain);
    var v := x.unpack(raw);
    var _ :- Need(v.Some?);
    var m :- AsMap(v.value);
    var _ :- DocHeadOk(m, dom);
    var authority :- AuthorityField(x, m);
    var status :- Utf8Field(m, "status");
    var upd :- LongField(m, "updated_at");
    var key :- ParsedDocKey(x, m, dom);
    var chain :- DocChain(m);
    Ok(Doc(dom, key.fp, key.pk, status, FromUnix(upd), authority, chain))
  }

  method PackDoc(x: Primitives, d: Doc) returns (r: Result<Bytes>)
    ensures r == PackedDoc(x, d)
  {
    var dom := x.normalize(d.domain);
    if dom.Err? || |d.chain| > MAX_CHAIN_ENTRIES || |d.authority| > MAX_AUTHORITY_ENTRIES {
      return Err;
    }
    for i := 0 to |d.authority|
      invariant forall j :: 0 <= j < i ==> Canonical(x, d.authority[j])
    {
      if !Canonical(x, d.authority[i]) {
        return Err;
      }
    }
    var chain := CollectStatements(d.chain);
    var tail := [Entry("chain", List(chain)), Entry("domain", Str(dom.value)), Entry("status", Str(d.status)),
                 Entry("type", Str(DOC_TYPE)), Entry("updated_at", Int(Unix(d.updatedAt))), Entry("version", Str(VERSION))];
    if d.authority != [] {
      tail := [Entry("authority", List(Texts(d.authority)))] + tail;
    }
    assert AuthorityEntry(d.authority) + DocTail(d, dom.value) == tail;
    return Ok(Pack(Map(DocHead(d) + tail)));
  }

  method ParseDoc(x: Primitives, domain: Bytes, raw: Bytes) returns (r: Result<Doc>)
    ensures r == ParsedDoc(x, domain, raw)
  {
    if |raw| > MAX_CHAIN_BYTES {
      return Err;
    }
    var dom :- x.normalize(domain);
    var v := x.unpack(raw);
    if v.None? {
      return Err;
    }
    var m :- AsMap(v.value);
    var _ :- DocHeadOk(m, dom);
    var authority := ReadAuthority(x, m);
    if authority.Err? {
      return Err;
    }
    var status :- Utf8Field(m, "status");
    var upd :- LongField(m, "updated_at");
    var key :- ParsedDocKey(x, m, dom);
    var chain: seq<Statement> := [];
    var lst := Get(m, "chain");
    if lst.List? {
      if |lst.items| > MAX_CHAIN_ENTRIES {
        return Err;
      }
      var read := ReadStatements(lst.items);
      if read.Err? {
        return Err;
      }
      chain := read.value;
    }
    return Ok(Doc(dom, key.fp, key.pk, status, FromUnix(upd), authority.value, chain));
  }
}
