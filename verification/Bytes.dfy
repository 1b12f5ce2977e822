/** Byte strings. Go's `string` and `[]byte` are both byte sequences, and both are modelled
    as `Bytes`: a byte is a character below 256, so protocol constants are string literals. */
module Bytes {

  type byte = c: char | c as int < 256 witness '\0'
  type Bytes = seq<byte>

  function Byte(n: nat): byte
    requires n < 256
  {
    n as char
  }

  function Pow256(w: nat): (p: nat)
    ensures p > 0
  {
    if w == 0 then 1 else 256 * Pow256(w - 1)
  }

  lemma Pow256Values()
    ensures Pow256(1) == 0x100 && Pow256(2) == 0x1_0000
    ensures Pow256(4) == 0x1_0000_0000 && Pow256(8) == 0x1_0000_0000_0000_0000
  {
    assert Pow256(2) == 256 * Pow256(1);
    assert Pow256(4) == 256 * Pow256(3);
    assert Pow256(5) == 256 * Pow256(4);
    assert Pow256(6) == 256 * Pow256(5);
    assert Pow256(8) == 256 * Pow256(7);
  }

  /** The low `w` bytes of `n`, most significant first. */
  function BigEndian(n: nat, w: nat): (b: Bytes)
    ensures |b| == w
  {
    if w == 0 then [] else BigEndian(n / 256, w - 1) + [Byte(n % 256)]
  }

  function FromBigEndian(b: Bytes): nat {
    if b == [] then 0 else FromBigEndian(b[..|b| - 1]) * 256 + b[|b| - 1] as int
  }

  lemma {:induction false} BigEndianInverse(n: nat, w: nat)
    requires n < Pow256(w)
    ensures FromBigEndian(BigEndian(n, w)) == n
  {
    if w != 0 {
      BigEndianInverse(n / 256, w - 1);
      var b := BigEndian(n, w);
      assert b[..|b| - 1] == BigEndian(n / 256, w - 1);
    }
  }

  /** Cutting a concatenation at its seam. */
  lemma Seam(a: Bytes, b: Bytes)
    ensures (a + b)[..|a|] == a && (a + b)[|a|..] == b
  {
  }

  lemma Associative(a: Bytes, b: Bytes, c: Bytes)
    ensures a + b + c == a + (b + c)
  {
  }

  /** `a` and `b` agree before index `i`, and there `a` ends or has the smaller byte. */
  predicate LessAt(a: Bytes, b: Bytes, i: nat) {
    i <= |a| && i < |b| && (forall j :: 0 <= j < i ==> a[j] == b[j]) && (i == |a| || a[i] < b[i])
  }

  /** Bytewise order of keys, as Go compares strings. */
  ghost predicate Less(a: Bytes, b: Bytes) {
    exists i: nat :: LessAt(a, b, i)
  }

  lemma LessBy(a: Bytes, b: Bytes, i: nat)
    requires LessAt(a, b, i)
    ensures Less(a, b)
  {
  }

  lemma LessIrreflexive(a: Bytes)
    ensures !Less(a, a)
  {
  }

  lemma LessTransitive(a: Bytes, b: Bytes, c: Bytes)
    requires Less(a, b) && Less(b, c)
    ensures Less(a, c)
  {
    var i: nat :| LessAt(a, b, i);
    var j: nat :| LessAt(b, c, j);
    assert LessAt(a, c, if i < j then i else j);
  }
}

module Options {
  datatype Option<+T> = None | Some(value: T) {
    predicate IsFailure() { None? }
    function PropagateFailure<U>(): Option<U> requires None? { None }
    function Extract(): T requires Some? { value }
  }

  /** A Go `(value, error)` pair; which message an error carries is not modelled. */
  datatype Result<+T> = Ok(value: T) | Err {
    predicate IsFailure() { Err? }
    function PropagateFailure<U>(): Result<U> requires Err? { Err }
    function Extract(): T requires Ok? { value }
    function GetOr(default: T): T { if Ok? then value else default }
  }

  /** An error return guarded by a condition. */
  function Need(condition: bool): Result<()> {
    if condition then Ok(()) else Err
  }
}
