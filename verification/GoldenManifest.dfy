/** The published manifest vector (manifest/manifest_test.go): the bytes the protocol is pinned to. */
module GoldenManifest {
  import opened Bytes
  import opened MsgPack
  import opened Clock
  import opened Mailkey
  import opened Manifests

  const ISSUED := 1_700_000_000
  const EXPIRES := 1_700_086_400

  function Fixture(kid: Bytes, pk: Bytes): Manifest {
    Manifest(VERSION, "example.com", FromUnix(ISSUED), FromUnix(EXPIRES),
             KeyDescriptor(kid, ALG_X25519, ENC_AES256GCM, pk), [])
  }

  /** One packed map entry and what follows it. */
  function Line(key: Bytes, val: Bytes, rest: Bytes): Bytes { key + val + rest }

  /** The vector's key map, around its two 32-byte strings. */
  function KeyVector(kid: Bytes, pk: Bytes): Bytes {
    "\U{84}" + Line("\U{A3}alg", "\U{A6}x25519", Line("\U{A3}enc", "\U{A9}aes256gcm",
      Line("\U{A3}kid", "\U{C4}\U{20}" + kid, Line("\U{A2}pk", "\U{C4}\U{20}" + pk, []))))
  }

  function Vector(kid: Bytes, pk: Bytes): Bytes {
    "\U{85}" + Line("\U{A6}domain", "\U{AB}example.com",
      Line("\U{AA}expires_at", "\U{CE}\U{65}\U{55}\U{42}\U{80}",
      Line("\U{A9}issued_at", "\U{CE}\U{65}\U{53}\U{F1}\U{00}",
      Line("\U{A3}key", KeyVector(kid, pk), Line("\U{A1}v", "\U{A5}MKDP1", [])))))
  }

  lemma PackLine(es: seq<Entry>, key: Bytes, val: Bytes)
    requires es != [] && StrHead(|es[0].key|) + es[0].key == key && Pack(es[0].val) == val
    ensures PackEntries(es) == Line(key, val, PackEntries(es[1..]))
  {
  }

  lemma TopKeys()
    ensures StrHead(6) + "domain" == "\U{A6}domain" && StrHead(10) + "expires_at" == "\U{AA}expires_at"
    ensures StrHead(9) + "issued_at" == "\U{A9}issued_at" && StrHead(3) + "key" == "\U{A3}key"
    ensures StrHead(1) + "v" == "\U{A1}v"
  {
  }

  lemma KeyKeys()
    ensures StrHead(3) + "alg" == "\U{A3}alg" && StrHead(3) + "enc" == "\U{A3}enc"
    ensures StrHead(3) + "kid" == "\U{A3}kid" && StrHead(2) + "pk" == "\U{A2}pk"
  {
  }

  lemma Texts()
    ensures Pack(Str("example.com")) == "\U{AB}example.com" && Pack(Str(VERSION)) == "\U{A5}MKDP1"
    ensures Pack(Str(ALG_X25519)) == "\U{A6}x25519" && Pack(Str(ENC_AES256GCM)) == "\U{A9}aes256gcm"
  {
  }

  lemma FourBytes(n: nat, a: byte, b: byte, c: byte, d: byte)
    requires n == ((a as int * 256 + b as int) * 256 + c as int) * 256 + d as int && n >= 0x1_0000
    ensures PackInt(n) == "\U{CE}" + [a, b, c, d]
  {
    assert n / 256 == (a as int * 256 + b as int) * 256 + c as int && n % 256 == d as int;
    assert n / 256 / 256 == a as int * 256 + b as int;
    assert BigEndian(n, 4) == BigEndian(n / 256, 3) + [d];
    assert BigEndian(n / 256, 3) == BigEndian(n / 256 / 256, 2) + [c];
    assert BigEndian(n / 256 / 256, 2) == BigEndian(a as int, 1) + [b];
    assert BigEndian(a as int, 1) == [] + [a];
  }

  lemma Times()
    ensures PackInt(EXPIRES) == "\U{CE}\U{65}\U{55}\U{42}\U{80}"
    ensures PackInt(ISSUED) == "\U{CE}\U{65}\U{53}\U{F1}\U{00}"
  {
    FourBytes(EXPIRES, '\U{65}', '\U{55}', '\U{42}', '\U{80}');
    FourBytes(ISSUED, '\U{65}', '\U{53}', '\U{F1}', '\U{00}');
  }

  lemma Raw32(b: Bytes)
    requires |b| == 32
    ensures Pack(Bin(b)) == "\U{C4}\U{20}" + b
  {
    assert BigEndian(32, 1) == BigEndian(0, 0) + [Byte(32)];
    assert BinHead(32) == "\U{C4}\U{20}";
  }

  lemma KeyMatches(k: KeyDescriptor)
    requires k.algorithm == ALG_X25519 && k.encryption == ENC_AES256GCM && |k.kid| == 32 && |k.publicKey| == 32
    ensures Pack(Map(KeyEntries(k))) == KeyVector(k.kid, k.publicKey)
  {
    var es := KeyEntries(k);
    KeyKeys();
    Texts();
    Raw32(k.kid);
    Raw32(k.publicKey);
    PackLine(es, "\U{A3}alg", "\U{A6}x25519");
    PackLine(es[1..], "\U{A3}enc", "\U{A9}aes256gcm");
    PackLine(es[1..][1..], "\U{A3}kid", "\U{C4}\U{20}" + k.kid);
    PackLine(es[1..][1..][1..], "\U{A2}pk", "\U{C4}\U{20}" + k.publicKey);
    assert MapHead(4) == "\U{84}";
  }

  /** Packing the test's manifest yields the vector, whatever the key and its id. */
  lemma VectorMatches(kid: Bytes, pk: Bytes)
    requires |kid| == 32 && |pk| == 32
    ensures Pack(Map(TopEntries(Fixture(kid, pk)))) == Vector(kid, pk)
  {
    var m := Fixture(kid, pk);
    var es := TopEntries(m);
    UnixRoundTrip(ISSUED);
    UnixRoundTrip(EXPIRES);
    TopKeys();
    Texts();
    Times();
    KeyMatches(m.key);
    PackLine(es, "\U{A6}domain", "\U{AB}example.com");
    PackLine(es[1..], "\U{AA}expires_at", "\U{CE}\U{65}\U{55}\U{42}\U{80}");
    PackLine(es[1..][1..], "\U{A9}issued_at", "\U{CE}\U{65}\U{53}\U{F1}\U{00}");
    PackLine(es[1..][1..][1..], "\U{A3}key", KeyVector(kid, pk));
    PackLine(es[1..][1..][1..][1..], "\U{A1}v", "\U{A5}MKDP1");
    assert MapHead(5) == "\U{85}";
  }
}
