/** Reading typed fields of a decoded map, and the bytewise order of map keys. */
module Fields {
  import opened Bytes
  import opened Options
  import opened MsgPack

  /** An absent key answers a null sentinel, as the value library does. */
  function Get(es: seq<Entry>, key: Bytes): Value {
    if es == [] then Nil
    else if es[0].key == key then es[0].val
    else Get(es[1..], key)
  }

  predicate Has(es: seq<Entry>, key: Bytes) {
    exists i :: 0 <= i < |es| && es[i].key == key
  }

  /** The map's keys all come from `allowed` (boundedKeys). */
  predicate KeysWithin(es: seq<Entry>, allowed: set<Bytes>) {
    forall i :: 0 <= i < |es| ==> es[i].key in allowed
  }

  function AsMap(v: Value): Result<seq<Entry>> {
    if v.Map? then Ok(v.entries) else Err
  }

  function Utf8Field(es: seq<Entry>, key: Bytes): Result<Bytes> {
    var v := Get(es, key);
    if v.Str? then Ok(v.s) else Err
  }

  function RawField(es: seq<Entry>, key: Bytes): Result<Bytes> {
    var v := Get(es, key);
    if v.Bin? then Ok(v.b) else Err
  }

  function LongField(es: seq<Entry>, key: Bytes): Result<int> {
    var v := Get(es, key);
    if v.Int? && IsInt64(v.n) then Ok(v.n) else Err
  }

  // --- canonical key order -----------------------------------------------------

  /** What a sorted map writes: every key bytewise after the one before it. */
  ghost predicate Sorted(es: seq<Entry>) {
    forall i :: 0 < i < |es| ==> Less(es[i - 1].key, es[i].key)
  }

  /** Every map in the value, at any depth, is sorted and so names no key twice. */
  ghost predicate KeysSorted(v: Value) {
    match v
    case List(items) => forall i :: 0 <= i < |items| ==> KeysSorted(items[i])
    case Map(es) => Sorted(es) && forall i :: 0 <= i < |es| ==> KeysSorted(es[i].val)
    case _ => true
  }

  lemma {:induction false} SortedApart(es: seq<Entry>, i: nat, j: nat)
    requires Sorted(es) && i < j < |es|
    ensures Less(es[i].key, es[j].key) && es[i].key != es[j].key
    decreases j - i
  {
    if i + 1 < j {
      SortedApart(es, i, j - 1);
      LessTransitive(es[i].key, es[j - 1].key, es[j].key);
    }
    LessIrreflexive(es[j].key);
  }

  /** Entries listed in key order are sorted. */
  lemma SortedOf4(e0: Entry, e1: Entry, e2: Entry, e3: Entry)
    requires Less(e0.key, e1.key) && Less(e1.key, e2.key) && Less(e2.key, e3.key)
    ensures Sorted([e0, e1, e2, e3])
  {
  }

  lemma SortedOf5(e0: Entry, e1: Entry, e2: Entry, e3: Entry, e4: Entry)
    requires Less(e0.key, e1.key) && Less(e1.key, e2.key) && Less(e2.key, e3.key) && Less(e3.key, e4.key)
    ensures Sorted([e0, e1, e2, e3, e4])
  {
  }

  lemma SortedOf6(e0: Entry, e1: Entry, e2: Entry, e3: Entry, e4: Entry, e5: Entry)
    requires Less(e0.key, e1.key) && Less(e1.key, e2.key) && Less(e2.key, e3.key) && Less(e3.key, e4.key)
    requires Less(e4.key, e5.key)
    ensures Sorted([e0, e1, e2, e3, e4, e5])
  {
  }

  /** Sorted runs join when the seam is in order. */
  lemma SortedJoin(a: seq<Entry>, b: seq<Entry>)
    requires Sorted(a) && Sorted(b) && (a == [] || b == [] || Less(a[|a| - 1].key, b[0].key))
    ensures Sorted(a + b)
  {
  }

  /** In a sorted map each key is found where it stands. */
  lemma {:induction false} GetAt(es: seq<Entry>, i: nat)
    requires Sorted(es) && i < |es|
    ensures Get(es, es[i].key) == es[i].val
  {
    if i > 0 {
      SortedApart(es, 0, i);
      assert forall k :: 0 < k < |es[1..]| ==> es[1..][k - 1] == es[k] && es[1..][k] == es[k + 1];
      GetAt(es[1..], i - 1);
    }
  }

  /** A key that falls between two neighbours of a sorted map is not in it. */
  lemma SortedGap(es: seq<Entry>, i: nat, key: Bytes)
    requires Sorted(es) && i <= |es|
    requires i == 0 || Less(es[i - 1].key, key)
    requires i == |es| || Less(key, es[i].key)
    ensures !Has(es, key) && Get(es, key) == Nil
  {
    forall j | 0 <= j < |es| ensures es[j].key != key {
      LessIrreflexive(key);
      if j < i - 1 {
        SortedApart(es, j, i - 1);
        LessTransitive(es[j].key, es[i - 1].key, key);
      } else if i < j {
        SortedApart(es, i, j);
        LessTransitive(key, es[i].key, es[j].key);
      }
    }
    GetAbsent(es, key);
  }

  lemma {:induction false} GetAbsent(es: seq<Entry>, key: Bytes)
    requires !Has(es, key)
    ensures Get(es, key) == Nil
  {
    if es != [] {
      assert es[0].key != key;
      assert forall i :: 0 <= i < |es[1..]| ==> es[1..][i] == es[i + 1];
      GetAbsent(es[1..], key);
    }
  }

  // --- sizes -------------------------------------------------------------------

  lemma LeafSize(v: Value)
    ensures v.Str? ==> |Pack(v)| <= |v.s| + 5
    ensures v.Bin? ==> |Pack(v)| <= |v.b| + 5
    ensures v.Int? ==> |Pack(v)| <= 9
  {
  }

  lemma Successor(n: nat, k: nat)
    requires n > 0
    ensures n * k == (n - 1) * k + k
  {
  }

  lemma EntriesSizeStep(es: seq<Entry>)
    requires es != []
    ensures |PackEntries(es)| <= 5 + |es[0].key| + |Pack(es[0].val)| + |PackEntries(es[1..])|
  {
  }

  lemma {:induction false} EntriesSize(es: seq<Entry>, bound: nat)
    requires forall i :: 0 <= i < |es| ==> |es[i].key| + |Pack(es[i].val)| <= bound
    ensures |PackEntries(es)| <= |es| * (bound + 5)
  {
    if es != [] {
      EntriesSize(es[1..], bound);
      EntriesSizeStep(es);
      Successor(|es|, bound + 5);
    }
  }

  lemma ItemsSizeStep(items: seq<Value>)
    requires items != []
    ensures |PackItems(items)| == |Pack(items[0])| + |PackItems(items[1..])|
  {
  }

  lemma {:induction false} ItemsSize(items: seq<Value>, bound: nat)
    requires forall i :: 0 <= i < |items| ==> |Pack(items[i])| <= bound
    ensures |PackItems(items)| <= |items| * bound
  {
    if items != [] {
      ItemsSize(items[1..], bound);
      ItemsSizeStep(items);
      Successor(|items|, bound);
    }
  }
}
