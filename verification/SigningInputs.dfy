/** Every byte string an identity key signs says what it is: no two different objects share one. */
module SigningInputs {
  import opened Bytes
  import opened Options
  import opened MsgPack
  import opened MsgPackProofs
  import opened Clock
  import opened Mailkey
  import opened Manifests
  import opened Identity

  lemma ManifestFirstByte(x: Primitives, m: Manifest)
    requires Packed(x, m).Ok?
    ensures Packed(x, m).value[0] == Byte(if m.authority == [] then 0x85 else 0x86)
  {
    assert Packed(x, m).value == MapHead(|TopEntries(m)|) + PackEntries(TopEntries(m));
  }

  lemma DomainStopsBefore(d: Bytes, raw: Bytes, e: Bytes, saw: Bytes)
    requires IsDomain(d) && IsDomain(e) && raw != [] && saw != []
    requires raw[0] as int >= 0x80 && saw[0] as int >= 0x80
    requires d + raw == e + saw
    ensures d == e && raw == saw
  {
    var all := d + raw;
    assert all[|d|] == raw[0] && all[|e|] == saw[0];
    assert forall i :: 0 <= i < |d| ==> IsDomainByte(d[i]) && all[i] == d[i];
    assert forall i :: 0 <= i < |e| ==> IsDomainByte(e[i]) && all[i] == e[i];
    assert |d| == |e|;
    assert all[..|d|] == d && all[..|e|] == e && all[|d|..] == raw && all[|e|..] == saw;
  }

  lemma CancelPrefix(p: Bytes, a: Bytes, b: Bytes)
    requires p + a == p + b
    ensures a == b
  {
    Seam(p, a);
    Seam(p, b);
  }

  /** The transcript has no separator, yet determines the domain and the manifest. */
  lemma TranscriptUnambiguous(x: Primitives, domain1: Bytes, m1: Manifest, domain2: Bytes, m2: Manifest)
    requires Sound(x) && Packed(x, m1).Ok? && Packed(x, m2).Ok?
    requires var t := Transcript(x, domain1, Packed(x, m1).value);
      t.Ok? && t == Transcript(x, domain2, Packed(x, m2).value)
    ensures x.normalize(domain1) == x.normalize(domain2) && Packed(x, m1) == Packed(x, m2)
  {
    var d, e := x.normalize(domain1).value, x.normalize(domain2).value;
    var raw, saw := Packed(x, m1).value, Packed(x, m2).value;
    ManifestFirstByte(x, m1);
    ManifestFirstByte(x, m2);
    Associative(MANIFEST_CONTEXT, d, raw);
    Associative(MANIFEST_CONTEXT, e, saw);
    CancelPrefix(MANIFEST_CONTEXT, d + raw, e + saw);
    DomainStopsBefore(d, raw, e, saw);
  }

  /** Lengths below 4 GiB and times in the 64-bit range. */
  predicate FitsWire(s: Statement) {
    && |s.kind| < 0x1_0000_0000 && |s.version| < 0x1_0000_0000 && |s.domain| < 0x1_0000_0000
    && |s.oldFP| == HASH_LENGTH && |s.newFP| == HASH_LENGTH && |s.newAlg| < 0x1_0000_0000
    && |s.newPK| < 0x1_0000_0000 && |s.reason| < 0x1_0000_0000
    && |s.oldSignature| < 0x1_0000_0000 && |s.newSignature| < 0x1_0000_0000
    && IsInt64(Unix(s.notBefore)) && IsInt64(Unix(s.createdAt)) && IsInt64(Unix(s.expiresAt))
  }

  /** Everything the signatures cover: all fields but the signatures, times to the second, and
      the reason only of a revocation. */
  predicate SameSignedFields(a: Statement, b: Statement) {
    && a.kind == b.kind && a.version == b.version && a.oldFP == b.oldFP && a.newFP == b.newFP
    && a.newAlg == b.newAlg && a.newPK == b.newPK
    && Unix(a.notBefore) == Unix(b.notBefore) && Unix(a.createdAt) == Unix(b.createdAt)
    && Unix(a.expiresAt) == Unix(b.expiresAt)
    && (a.IsRevocation() ==> a.reason == b.reason)
  }

  lemma SignedPackable(s: Statement, d: Bytes)
    requires FitsWire(s) && IsDomain(d)
    ensures Packable(Map(SignedEntries(s, d)))
  {
  }

  lemma SignedEntriesDetermine(a: Statement, d: Bytes, b: Statement, e: Bytes)
    requires SignedEntries(a, d) == SignedEntries(b, e)
    ensures SameSignedFields(a, b) && d == e
  {
    var p, q := SignedEntries(a, d), SignedEntries(b, e);
    assert p[0] == q[0] && p[1] == q[1] && p[2] == q[2] && p[3] == q[3];
    assert p[4] == q[4] && p[5] == q[5] && p[6] == q[6] && p[7] == q[7];
    assert |p| == |q|;
    assert p[8] == q[8] && p[|p| - 2] == q[|q| - 2] && p[|p| - 1] == q[|q| - 1];
  }

  /** Signing bytes determine every signed field, the statement's type among them, and are
      determined by them. */
  lemma SigningBytesIff(x: Primitives, a: Statement, b: Statement)
    requires Sound(x) && FitsWire(a) && FitsWire(b)
    requires x.normalize(a.domain).Ok? && x.normalize(b.domain).Ok?
    ensures SigningBytes(x, a) == SigningBytes(x, b) <==>
      SameSignedFields(a, b) && x.normalize(a.domain) == x.normalize(b.domain)
  {
    var d, e := x.normalize(a.domain).value, x.normalize(b.domain).value;
    var v, w := Map(SignedEntries(a, d)), Map(SignedEntries(b, e));
    if SigningBytes(x, a) == SigningBytes(x, b) {
      CancelPrefix(STATEMENT_CONTEXT, Pack(v), Pack(w));
      SignedPackable(a, d);
      SignedPackable(b, e);
      PackPrefixFree(v, w, [], []);
      SignedEntriesDetermine(a, d, b, e);
    }
  }

  /** A manifest proof can never be replayed as a statement's signature, nor the reverse. */
  lemma ContextsApart(x: Primitives, domain: Bytes, raw: Bytes, s: Statement)
    requires Transcript(x, domain, raw).Ok? && SigningBytes(x, s).Ok?
    ensures Transcript(x, domain, raw) != SigningBytes(x, s)
  {
    assert Transcript(x, domain, raw).value[13] == MANIFEST_CONTEXT[13] == 'm';
    assert SigningBytes(x, s).value[13] == STATEMENT_CONTEXT[13] == 'i';
  }
}
