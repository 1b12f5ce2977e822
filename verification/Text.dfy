/** The string operations the text formats use: Go's strings and bytes functions, with ASCII
    white space and ASCII case folding. */
module Text {
  import opened Bytes
  import opened Options

  predicate IsSpace(c: byte) {
    c == ' ' || c == '\t' || c == '\n' || c == '\r' || c == Byte(11) || c == Byte(12)
  }

  function TrimLeft(s: Bytes): Bytes {
    if s != [] && IsSpace(s[0]) then TrimLeft(s[1..]) else s
  }

  function TrimRight(s: Bytes): Bytes {
    if s != [] && IsSpace(s[|s| - 1]) then TrimRight(s[..|s| - 1]) else s
  }

  function Trim(s: Bytes): Bytes { TrimRight(TrimLeft(s)) }

  function LowerByte(c: byte): byte {
    if 'A' <= c <= 'Z' then Byte(c as int + 32) else c
  }

  function Lower(s: Bytes): (r: Bytes)
    ensures |r| == |s| && forall i :: 0 <= i < |s| ==> r[i] == LowerByte(s[i])
  {
    seq(|s|, i requires 0 <= i < |s| => LowerByte(s[i]))
  }

  /** The pieces between separators; always at least one. */
  function Split(s: Bytes, sep: byte): (r: seq<Bytes>)
    ensures |r| > 0
  {
    if s == [] then [[]]
    else
      var rest := Split(s[1..], sep);
      if s[0] == sep then [[]] + rest else [[s[0]] + rest[0]] + rest[1..]
  }

  datatype Pair = Pair(key: Bytes, value: Bytes)

  /** Everything before and after the first `sep`. */
  function Cut(s: Bytes, sep: byte): Option<Pair> {
    if s == [] then None
    else if s[0] == sep then Some(Pair([], s[1..]))
    else
      var p :- Cut(s[1..], sep);
      Some(Pair([s[0]] + p.key, p.value))
  }

  // --- facts -----------------------------------------------------------------------------

  predicate Without(s: Bytes, c: byte) {
    forall i :: 0 <= i < |s| ==> s[i] != c
  }

  lemma {:induction false} SplitWhole(s: Bytes, sep: byte)
    requires Without(s, sep)
    ensures Split(s, sep) == [s]
  {
    if s != [] {
      SplitWhole(s[1..], sep);
      assert [s[0]] + s[1..] == s;
    }
  }

  lemma {:induction false} SplitAt(a: Bytes, sep: byte, b: Bytes)
    requires Without(a, sep)
    ensures Split(a + [sep] + b, sep) == [a] + Split(b, sep)
  {
    var s := a + [sep] + b;
    if a == [] {
      assert s[1..] == b;
    } else {
      assert s[1..] == a[1..] + [sep] + b;
      SplitAt(a[1..], sep, b);
      assert [a[0]] + a[1..] == a;
    }
  }

  lemma {:induction false} CutAt(a: Bytes, sep: byte, b: Bytes)
    requires Without(a, sep)
    ensures Cut(a + [sep] + b, sep) == Some(Pair(a, b))
  {
    var s := a + [sep] + b;
    if a == [] {
      assert s[1..] == b;
    } else {
      assert s[1..] == a[1..] + [sep] + b;
      CutAt(a[1..], sep, b);
      assert [a[0]] + a[1..] == a;
    }
  }

  /** Nothing to trim at either end. */
  predicate Tight(s: Bytes) {
    s == [] || (!IsSpace(s[0]) && !IsSpace(s[|s| - 1]))
  }

  predicate AllSpace(s: Bytes) {
    forall i :: 0 <= i < |s| ==> IsSpace(s[i])
  }

  lemma {:induction false} TrimLeftPadding(p: Bytes, s: Bytes)
    requires AllSpace(p) && (s == [] || !IsSpace(s[0]))
    ensures TrimLeft(p + s) == s
  {
    if p == [] {
      assert p + s == s;
    } else {
      TrimLeftPadding(p[1..], s);
      assert (p + s)[1..] == p[1..] + s;
    }
  }

  lemma {:induction false} TrimRightPadding(s: Bytes, q: Bytes)
    requires AllSpace(q) && (s == [] || !IsSpace(s[|s| - 1]))
    ensures TrimRight(s + q) == s
  {
    if q == [] {
      assert s + q == s;
    } else {
      TrimRightPadding(s, q[..|q| - 1]);
      assert (s + q)[..|s + q| - 1] == s + q[..|q| - 1];
    }
  }

  lemma TrimPadding(p: Bytes, s: Bytes, q: Bytes)
    requires AllSpace(p) && AllSpace(q) && Tight(s)
    ensures Trim(p + s + q) == s
  {
    Associative(p, s, q);
    if s == [] {
      assert AllSpace(p + q) && p + s + q == (p + q) + [];
      TrimLeftPadding(p + q, []);
    } else {
      TrimLeftPadding(p, s + q);
      TrimRightPadding(s, q);
    }
  }

  lemma TrimTight(s: Bytes)
    requires Tight(s)
    ensures Trim(s) == s
  {
    TrimPadding([], s, []);
    assert [] + s + [] == s;
  }
}
