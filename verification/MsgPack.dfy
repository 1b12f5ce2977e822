/** The MessagePack subset MKDP1 is written in: integers, UTF-8 strings, raw bytes, lists and
    string-keyed maps, following the int, str, bin, array and map format families of the
    MessagePack specification. Packing always picks the smallest encoding; unpacking is
    lenient about widths, key order and trailing bytes. */
module MsgPack {
  import opened Bytes
  import opened Options

  /** `Nil` is the null value, and what a map answers for an absent key; `Other` stands for the
      kinds MKDP1 never writes (booleans, floating point). */
  datatype Value =
    | Int(n: int)
    | Str(s: Bytes)
    | Bin(b: Bytes)
    | List(items: seq<Value>)
    | Map(entries: seq<Entry>)
    | Nil
    | Other

  datatype Entry = Entry(key: Bytes, val: Value)

  const INT64_MIN: int := -0x8000_0000_0000_0000
  const INT64_MAX: int := 0x7FFF_FFFF_FFFF_FFFF

  predicate IsInt64(n: int) { INT64_MIN <= n <= INT64_MAX }

  /** What the packer accepts: 64-bit integers and 32-bit lengths. */
  predicate Packable(v: Value) {
    match v
    case Int(n) => IsInt64(n)
    case Str(s) => |s| < 0x1_0000_0000
    case Bin(b) => |b| < 0x1_0000_0000
    case List(items) => |items| < 0x1_0000_0000 && forall i :: 0 <= i < |items| ==> Packable(items[i])
    case Map(es) =>
      && |es| < 0x1_0000_0000
      && forall i :: 0 <= i < |es| ==> |es[i].key| < 0x1_0000_0000 && Packable(es[i].val)
    case Nil => true
    case Other => false
  }

  // --- packing -----------------------------------------------------------------

  function Tag(t: nat, n: nat, w: nat): (b: Bytes)
    requires t < 256
    ensures |b| == 1 + w && b[0] == Byte(t) && b[1..] == BigEndian(n, w)
  {
    [Byte(t)] + BigEndian(n, w)
  }

  function PackInt(n: int): (b: Bytes)
    ensures |b| > 0
  {
    if 0 <= n < 0x80 then [Byte(n)]
    else if n >= 0 then
      if n < 0x100 then Tag(0xCC, n, 1)
      else if n < 0x1_0000 then Tag(0xCD, n, 2)
      else if n < 0x1_0000_0000 then Tag(0xCE, n, 4)
      else Tag(0xCF, n, 8)
    else if n >= -0x20 then [Byte(n + 0x100)]
    else if n >= -0x80 then Tag(0xD0, n + 0x100, 1)
    else if n >= -0x8000 then Tag(0xD1, n + 0x1_0000, 2)
    else if n >= -0x8000_0000 then Tag(0xD2, n + 0x1_0000_0000, 4)
    else if n >= INT64_MIN then Tag(0xD3, n + 0x1_0000_0000_0000_0000, 8)
    else Tag(0xD3, 0, 8)
  }

  function StrHead(n: nat): (b: Bytes) ensures |b| > 0 {
    if n < 0x20 then [Byte(0xA0 + n)]
    else if n < 0x100 then Tag(0xD9, n, 1)
    else if n < 0x1_0000 then Tag(0xDA, n, 2)
    else Tag(0xDB, n, 4)
  }

  function BinHead(n: nat): (b: Bytes) ensures |b| > 0 {
    if n < 0x100 then Tag(0xC4, n, 1)
    else if n < 0x1_0000 then Tag(0xC5, n, 2)
    else Tag(0xC6, n, 4)
  }

  function ListHead(n: nat): (b: Bytes) ensures |b| > 0 {
    if n < 0x10 then [Byte(0x90 + n)]
    else if n < 0x1_0000 then Tag(0xDC, n, 2)
    else Tag(0xDD, n, 4)
  }

  function MapHead(n: nat): (b: Bytes) ensures |b| > 0 {
    if n < 0x10 then [Byte(0x80 + n)]
    else if n < 0x1_0000 then Tag(0xDE, n, 2)
    else Tag(0xDF, n, 4)
  }

  function Pack(v: Value): (b: Bytes)
    ensures |b| > 0
    decreases v, 1
  {
    match v
    case Int(n) => PackInt(n)
    case Str(s) => StrHead(|s|) + s
    case Bin(d) => BinHead(|d|) + d
    case List(items) => ListHead(|items|) + PackItems(items)
    case Map(es) => MapHead(|es|) + PackEntries(es)
    case Nil => [Byte(0xC0)]
    case Other => [Byte(0xC2)]
  }

  function PackItems(items: seq<Value>): Bytes
    decreases items, 0
  {
    if items == [] then [] else Pack(items[0]) + PackItems(items[1..])
  }

  function PackEntries(es: seq<Entry>): Bytes
    decreases es, 0
  {
    if es == [] then []
    else StrHead(|es[0].key|) + es[0].key + Pack(es[0].val) + PackEntries(es[1..])
  }

  // --- unpacking ---------------------------------------------------------------

  datatype Cut<+T> = Cut(got: T, rest: Bytes)

  function Number(b: Bytes, w: nat): (r: Option<Cut<nat>>)
    ensures r.Some? ==> |r.value.rest| == |b| - w
  {
    if |b| < w then None else Some(Cut(FromBigEndian(b[..w]), b[w..]))
  }

  function Signed(b: Bytes, w: nat): (r: Option<Cut<Value>>)
    ensures r.Some? ==> |r.value.rest| == |b| - w
  {
    var c :- Number(b, w);
    Some(Cut(Int(if 2 * c.got >= Pow256(w) then c.got - Pow256(w) else c.got), c.rest))
  }

  function Unsigned(b: Bytes, w: nat): (r: Option<Cut<Value>>)
    ensures r.Some? ==> |r.value.rest| == |b| - w
  {
    var c :- Number(b, w);
    // A value above the signed range is still delivered as a 64-bit integer.
    Some(Cut(Int(if c.got > INT64_MAX then c.got - 0x1_0000_0000_0000_0000 else c.got), c.rest))
  }

  function Chunk(n: nat, b: Bytes): (r: Option<Cut<Bytes>>)
    ensures r.Some? ==> |r.value.rest| <= |b|
  {
    if |b| < n then None else Some(Cut(b[..n], b[n..]))
  }

  /** The length announced by a str head. */
  function StrLength(b: Bytes): (r: Option<Cut<nat>>)
    ensures r.Some? ==> |r.value.rest| < |b|
  {
    if b == [] then None else
    var t := b[0] as int;
    if 0xA0 <= t < 0xC0 then Some(Cut(t - 0xA0, b[1..]))
    else if t == 0xD9 then Number(b[1..], 1)
    else if t == 0xDA then Number(b[1..], 2)
    else if t == 0xDB then Number(b[1..], 4)
    else None
  }

  function UnpackOne(b: Bytes): (r: Option<Cut<Value>>)
    ensures r.Some? ==> |r.value.rest| < |b|
    decreases |b|, 0, 0
  {
    if b == [] then None else
    var t := b[0] as int;
    var rest := b[1..];
    if t < 0x80 then Some(Cut(Int(t), rest))
    else if t < 0x90 then UnpackMap(t - 0x80, rest)
    else if t < 0xA0 then UnpackList(t - 0x90, rest)
    else if t < 0xC0 || 0xD9 <= t <= 0xDB then
      var n :- StrLength(b);
      var c :- Chunk(n.got, n.rest);
      Some(Cut(Str(c.got), c.rest))
    else if t == 0xC0 then Some(Cut(Nil, rest))
    else if t == 0xC2 || t == 0xC3 then Some(Cut(Other, rest))
    else if t == 0xCA || t == 0xCB then
      var c :- Chunk(if t == 0xCA then 4 else 8, rest);
      Some(Cut(Other, c.rest))
    else if 0xC4 <= t <= 0xC6 then
      var n :- Number(rest, if t == 0xC4 then 1 else if t == 0xC5 then 2 else 4);
      var c :- Chunk(n.got, n.rest);
      Some(Cut(Bin(c.got), c.rest))
    else if t == 0xCC then Unsigned(rest, 1)
    else if t == 0xCD then Unsigned(rest, 2)
    else if t == 0xCE then Unsigned(rest, 4)
    else if t == 0xCF then Unsigned(rest, 8)
    else if t == 0xD0 then Signed(rest, 1)
    else if t == 0xD1 then Signed(rest, 2)
    else if t == 0xD2 then Signed(rest, 4)
    else if t == 0xD3 then Signed(rest, 8)
    else if t == 0xDC || t == 0xDD then
      var n :- Number(rest, if t == 0xDC then 2 else 4);
      UnpackList(n.got, n.rest)
    else if t == 0xDE || t == 0xDF then
      var n :- Number(rest, if t == 0xDE then 2 else 4);
      UnpackMap(n.got, n.rest)
    else if t >= 0xE0 then Some(Cut(Int(t - 0x100), rest))
    else None
  }

  function UnpackList(n: nat, b: Bytes): (r: Option<Cut<Value>>)
    ensures r.Some? ==> |r.value.rest| <= |b|
    decreases |b|, 1, n
  {
    var c :- UnpackItems(n, b);
    Some(Cut(List(c.got), c.rest))
  }

  function UnpackMap(n: nat, b: Bytes): (r: Option<Cut<Value>>)
    ensures r.Some? ==> |r.value.rest| <= |b|
    decreases |b|, 1, n
  {
    var c :- UnpackEntries(n, b);
    Some(Cut(Map(c.got), c.rest))
  }

  function UnpackItems(n: nat, b: Bytes): (r: Option<Cut<seq<Value>>>)
    ensures r.Some? ==> |r.value.rest| <= |b|
    decreases |b|, 0, n
  {
    if n == 0 then Some(Cut([], b)) else
    var head :- UnpackOne(b);
    var tail :- UnpackItems(n - 1, head.rest);
    Some(Cut([head.got] + tail.got, tail.rest))
  }

  function UnpackEntries(n: nat, b: Bytes): (r: Option<Cut<seq<Entry>>>)
    ensures r.Some? ==> |r.value.rest| <= |b|
    decreases |b|, 0, n
  {
    if n == 0 then Some(Cut([], b)) else
    var head :- UnpackEntry(b);
    var tail :- UnpackEntries(n - 1, head.rest);
    Some(Cut([head.got] + tail.got, tail.rest))
  }

  function UnpackEntry(b: Bytes): (r: Option<Cut<Entry>>)
    ensures r.Some? ==> |r.value.rest| < |b|
    decreases |b|, 0, 0
  {
    var k :- StrLength(b);
    var key :- Chunk(k.got, k.rest);
    var val :- UnpackOne(key.rest);
    Some(Cut(Entry(key.got, val.got), val.rest))
  }

  /** Unpacking ignores whatever follows the first value. */
  function Unpack(b: Bytes): Option<Value> {
    var c :- UnpackOne(b);
    Some(c.got)
  }
}
