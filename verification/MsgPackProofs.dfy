/** Unpacking inverts packing, hence packing is injective and prefix-free. */
module MsgPackProofs {
  import opened Bytes
  import opened Options
  import opened MsgPack

  /** A tagged big-endian number followed by anything reads back. */
  lemma NumberAfterTag(t: nat, n: nat, w: nat, rest: Bytes)
    requires t < 256 && n < Pow256(w)
    ensures var b := Tag(t, n, w) + rest; b != [] && b[0] == Byte(t) && Number(b[1..], w) == Some(Cut(n, rest))
  {
    var b := Tag(t, n, w) + rest;
    assert b[1..] == BigEndian(n, w) + rest;
    Seam(BigEndian(n, w), rest);
    BigEndianInverse(n, w);
  }

  lemma NaturalRoundTrip(n: nat, rest: Bytes)
    requires IsInt64(n)
    ensures UnpackOne(PackInt(n) + rest) == Some(Cut(Int(n), rest))
  {
    Pow256Values();
    if n < 0x80 {
      assert (PackInt(n) + rest)[1..] == rest;
    } else {
      var w := if n < 0x100 then 1 else if n < 0x1_0000 then 2 else if n < 0x1_0000_0000 then 4 else 8;
      var t := if w == 1 then 0xCC else if w == 2 then 0xCD else if w == 4 then 0xCE else 0xCF;
      NumberAfterTag(t, n, w, rest);
    }
  }

  lemma NegativeRoundTrip(n: int, rest: Bytes)
    requires IsInt64(n) && n < 0
    ensures UnpackOne(PackInt(n) + rest) == Some(Cut(Int(n), rest))
  {
    Pow256Values();
    if n >= -0x20 {
      assert (PackInt(n) + rest)[1..] == rest;
    } else {
      var w := if n >= -0x80 then 1 else if n >= -0x8000 then 2 else if n >= -0x8000_0000 then 4 else 8;
      var t := if w == 1 then 0xD0 else if w == 2 then 0xD1 else if w == 4 then 0xD2 else 0xD3;
      NumberAfterTag(t, n + Pow256(w), w, rest);
    }
  }

  lemma StrLengthAfterHead(n: nat, rest: Bytes)
    requires n < 0x1_0000_0000
    ensures StrLength(StrHead(n) + rest) == Some(Cut(n, rest))
    ensures var t := StrHead(n)[0] as int; 0xA0 <= t < 0xC0 || 0xD9 <= t <= 0xDB
  {
    Pow256Values();
    if n < 0x20 {
      assert (StrHead(n) + rest)[1..] == rest;
    } else {
      var w := if n < 0x100 then 1 else if n < 0x1_0000 then 2 else 4;
      NumberAfterTag(if w == 1 then 0xD9 else if w == 2 then 0xDA else 0xDB, n, w, rest);
    }
  }

  lemma StrRoundTrip(s: Bytes, rest: Bytes)
    requires |s| < 0x1_0000_0000
    ensures UnpackOne(Pack(Str(s)) + rest) == Some(Cut(Str(s), rest))
  {
    StrLengthAfterHead(|s|, s + rest);
    assert Pack(Str(s)) + rest == StrHead(|s|) + (s + rest);
    Seam(s, rest);
  }

  lemma BinRoundTrip(d: Bytes, rest: Bytes)
    requires |d| < 0x1_0000_0000
    ensures UnpackOne(Pack(Bin(d)) + rest) == Some(Cut(Bin(d), rest))
  {
    Pow256Values();
    var w := if |d| < 0x100 then 1 else if |d| < 0x1_0000 then 2 else 4;
    NumberAfterTag(if w == 1 then 0xC4 else if w == 2 then 0xC5 else 0xC6, |d|, w, d + rest);
    Associative(BinHead(|d|), d, rest);
    Seam(d, rest);
  }

  lemma ListHeadRoundTrip(n: nat, rest: Bytes)
    requires n < 0x1_0000_0000
    ensures UnpackOne(ListHead(n) + rest) == UnpackList(n, rest)
  {
    Pow256Values();
    if n < 0x10 {
      assert (ListHead(n) + rest)[1..] == rest;
    } else {
      NumberAfterTag(if n < 0x1_0000 then 0xDC else 0xDD, n, if n < 0x1_0000 then 2 else 4, rest);
    }
  }

  lemma MapHeadRoundTrip(n: nat, rest: Bytes)
    requires n < 0x1_0000_0000
    ensures UnpackOne(MapHead(n) + rest) == UnpackMap(n, rest)
  {
    Pow256Values();
    if n < 0x10 {
      assert (MapHead(n) + rest)[1..] == rest;
    } else {
      NumberAfterTag(if n < 0x1_0000 then 0xDE else 0xDF, n, if n < 0x1_0000 then 2 else 4, rest);
    }
  }

  lemma ListCase(items: seq<Value>, rest: Bytes)
    requires |items| < 0x1_0000_0000
    requires UnpackItems(|items|, PackItems(items) + rest) == Some(Cut(items, rest))
    ensures UnpackOne(Pack(List(items)) + rest) == Some(Cut(List(items), rest))
  {
    ListHeadRoundTrip(|items|, PackItems(items) + rest);
    assert Pack(List(items)) + rest == ListHead(|items|) + (PackItems(items) + rest);
  }

  lemma MapCase(es: seq<Entry>, rest: Bytes)
    requires |es| < 0x1_0000_0000
    requires UnpackEntries(|es|, PackEntries(es) + rest) == Some(Cut(es, rest))
    ensures UnpackOne(Pack(Map(es)) + rest) == Some(Cut(Map(es), rest))
  {
    MapHeadRoundTrip(|es|, PackEntries(es) + rest);
    Associative(MapHead(|es|), PackEntries(es), rest);
  }

  lemma EntryCase(key: Bytes, val: Value, tail: Bytes, rest: Bytes)
    requires |key| < 0x1_0000_0000
    requires UnpackOne(tail) == Some(Cut(val, rest))
    ensures UnpackEntry(StrHead(|key|) + (key + tail)) == Some(Cut(Entry(key, val), rest))
  {
    StrLengthAfterHead(|key|, key + tail);
    Seam(key, tail);
    assert Chunk(|key|, key + tail) == Some(Cut(key, tail));
  }

  lemma ItemsStep(v: Value, vs: seq<Value>, b: Bytes, tail: Bytes, rest: Bytes)
    requires UnpackOne(b) == Some(Cut(v, tail))
    requires UnpackItems(|vs|, tail) == Some(Cut(vs, rest))
    ensures UnpackItems(|vs| + 1, b) == Some(Cut([v] + vs, rest))
  {
  }

  lemma EntriesStep(e: Entry, es: seq<Entry>, b: Bytes, tail: Bytes, rest: Bytes)
    requires UnpackEntry(b) == Some(Cut(e, tail))
    requires UnpackEntries(|es|, tail) == Some(Cut(es, rest))
    ensures UnpackEntries(|es| + 1, b) == Some(Cut([e] + es, rest))
  {
  }

  lemma PackItemsSplit(items: seq<Value>, rest: Bytes)
    requires items != []
    ensures PackItems(items) + rest == Pack(items[0]) + (PackItems(items[1..]) + rest)
    ensures items == [items[0]] + items[1..]
  {
    Associative(Pack(items[0]), PackItems(items[1..]), rest);
  }

  lemma PackEntriesSplit(es: seq<Entry>, rest: Bytes)
    requires es != []
    ensures var e := es[0];
      PackEntries(es) + rest == StrHead(|e.key|) + (e.key + (Pack(e.val) + (PackEntries(es[1..]) + rest)))
    ensures es == [es[0]] + es[1..]
  {
    var e := es[0];
    Associative(StrHead(|e.key|) + e.key + Pack(e.val), PackEntries(es[1..]), rest);
    Associative(StrHead(|e.key|) + e.key, Pack(e.val), PackEntries(es[1..]) + rest);
    Associative(StrHead(|e.key|), e.key, Pack(e.val) + (PackEntries(es[1..]) + rest));
  }

  lemma {:induction false} RoundTrip(v: Value, rest: Bytes)
    requires Packable(v)
    ensures UnpackOne(Pack(v) + rest) == Some(Cut(v, rest))
    decreases v, 1
  {
    match v
    case Int(n) => if n < 0 { NegativeRoundTrip(n, rest); } else { NaturalRoundTrip(n, rest); }
    case Str(s) => StrRoundTrip(s, rest);
    case Bin(d) => BinRoundTrip(d, rest);
    case List(items) => ItemsRoundTrip(items, rest); ListCase(items, rest);
    case Map(es) => EntriesRoundTrip(es, rest); MapCase(es, rest);
    case Nil => assert (Pack(v) + rest)[1..] == rest;
  }

  lemma {:induction false} ItemsRoundTrip(items: seq<Value>, rest: Bytes)
    requires forall i :: 0 <= i < |items| ==> Packable(items[i])
    ensures UnpackItems(|items|, PackItems(items) + rest) == Some(Cut(items, rest))
    decreases items, 0
  {
    if items == [] {
      assert PackItems(items) + rest == rest;
    } else {
      var tail := PackItems(items[1..]) + rest;
      PackItemsSplit(items, rest);
      RoundTrip(items[0], tail);
      ItemsRoundTrip(items[1..], rest);
      ItemsStep(items[0], items[1..], Pack(items[0]) + tail, tail, rest);
    }
  }

  lemma {:induction false} EntriesRoundTrip(es: seq<Entry>, rest: Bytes)
    requires forall i :: 0 <= i < |es| ==> |es[i].key| < 0x1_0000_0000 && Packable(es[i].val)
    ensures UnpackEntries(|es|, PackEntries(es) + rest) == Some(Cut(es, rest))
    decreases es, 0
  {
    if es == [] {
      assert PackEntries(es) + rest == rest;
    } else {
      var e, tail := es[0], PackEntries(es[1..]) + rest;
      var body := Pack(e.val) + tail;
      PackEntriesSplit(es, rest);
      RoundTrip(e.val, tail);
      EntryCase(e.key, e.val, body, tail);
      EntriesRoundTrip(es[1..], rest);
      EntriesStep(e, es[1..], StrHead(|e.key|) + (e.key + body), tail, rest);
    }
  }

  lemma UnpackInvertsPack(v: Value)
    requires Packable(v)
    ensures Unpack(Pack(v)) == Some(v)
  {
    RoundTrip(v, []);
    assert Pack(v) + [] == Pack(v);
  }

  /** No packed value is a proper prefix of another. */
  lemma PackPrefixFree(v: Value, w: Value, p: Bytes, q: Bytes)
    requires Packable(v) && Packable(w)
    requires Pack(v) + p == Pack(w) + q
    ensures v == w && p == q
  {
    RoundTrip(v, p);
    RoundTrip(w, q);
  }
}
