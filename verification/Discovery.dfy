/** The "k=v; k=v" observations in DNS records and message headers (discovery/discovery.go). */
module Discovery {
  import opened Bytes
  import opened Options
  import opened Text
  import opened Mailkey
  import opened Base64Url

  const MODE: Bytes := "https"
  const MAX_TEXT := 512
  const FORBIDDEN: set<Bytes> := {"url", "host", "port", "path", "endpoint", "pk", "key", "seq"}

  /** What an observation says. `authority` is empty unless the domain delegates. */
  datatype Advertisement = Advertisement(domain: Bytes, authority: Bytes, fp: Option<Bytes>, id: Option<Bytes>)

  // --- the grammar -------------------------------------------------------------------------

  datatype Part = Blank | Broken | Field(key: Bytes, value: Bytes)

  function ReadPart(part: Bytes): Part {
    var t := Trim(part);
    if t == [] then Blank
    else match Text.Cut(t, '=')
      case None => Broken
      case Some(p) => Field(Lower(Trim(p.key)), Trim(p.value))
  }

  type FieldMap = map<Bytes, Bytes>

  /** The fields of the parts, read in order; a broken or a repeated one refuses them all. */
  function Collected(parts: seq<Bytes>, fields: FieldMap): Result<FieldMap> {
    if parts == [] then Ok(fields)
    else match ReadPart(parts[0])
      case Blank => Collected(parts[1..], fields)
      case Broken => Err
      case Field(k, v) => if k in fields then Err else Collected(parts[1..], fields[k := v])
  }

  function DomainField(x: Primitives, fields: FieldMap, domain: Bytes, requireDomain: bool): Result<Bytes> {
    if "d" in fields then
      var nd :- x.normalize(fields["d"]);
      var _ :- Need(domain == [] || nd == domain);
      Ok(nd)
    else
      var _ :- Need(!requireDomain);
      Ok(domain)
  }

  /** A self-pointing authority collapses to none. */
  function AuthorityOf(x: Primitives, fields: FieldMap, d: Bytes): Result<Bytes> {
    if "a" !in fields then Ok([])
    else
      var na :- x.normalize(fields["a"]);
      Ok(if na != d then na else [])
  }

  function IdOf(fields: FieldMap, key: Bytes): Result<Option<Bytes>> {
    if key !in fields then Ok(None)
    else
      var id :- DecodeID(fields[key]);
      Ok(Some(id))
  }

  /** What the collected fields mean. */
  function Meaning(x: Primitives, fields: FieldMap, domain: Bytes, requireDomain: bool): Result<Advertisement> {
    var _ :- Need("v" in fields && fields["v"] == VERSION);
    var _ :- Need("mode" in fields && fields["mode"] == MODE);
    var d :- DomainField(x, fields, domain, requireDomain);
    var a :- AuthorityOf(x, fields, d);
    var _ :- Need(fields.Keys !! FORBIDDEN);
    var fp :- IdOf(fields, "fp");
    var id :- IdOf(fields, "id");
    var _ :- Need(fp.Some? || id.Some?);
    Ok(Advertisement(d, a, fp, id))
  }

  function ParsedParams(x: Primitives, s: Bytes, domain: Bytes, requireDomain: bool): Result<Advertisement> {
    var fields :- Collected(Split(s, ';'), map[]);
    Meaning(x, fields, domain, requireDomain)
  }

  /** parseParams. */
  method ParseParams(x: Primitives, s: Bytes, domain: Bytes, requireDomain: bool) returns (r: Result<Advertisement>)
    ensures r == ParsedParams(x, s, domain, requireDomain)
  {
    var fields: FieldMap := map[];
    var parts := Split(s, ';');
    for i := 0 to |parts|
      invariant Collected(parts, map[]) == Collected(parts[i..], fields)
    {
      assert parts[i..][0] == parts[i] && parts[i..][1..] == parts[i + 1..];
      var part := Trim(parts[i]);
      if part != [] {
        var kv := Text.Cut(part, '=');
        if kv.None? {
          return Err;
        }
        var k := Lower(Trim(kv.value.key));
        if k in fields {
          return Err;
        }
        fields := fields[k := Trim(kv.value.value)];
      }
    }
    return Meaning(x, fields, domain, requireDomain);
  }

  function ParsedHeader(x: Primitives, value: Bytes): Result<Advertisement> {
    var _ :- Need(|value| <= MAX_TEXT);
    ParsedParams(x, value, [], true)
  }

  /** The readable records of a set, in order; each of the others is skipped. */
  function ParsedRecords(x: Primitives, d: Bytes, txt: seq<Bytes>): seq<Advertisement> {
    if txt == [] then []
    else
      var rest := ParsedRecords(x, d, txt[1..]);
      var ad := if |txt[0]| > MAX_TEXT then Err else ParsedParams(x, txt[0], d, false);
      if ad.Ok? then [ad.value] + rest else rest
  }

  method ParseDNS(x: Primitives, domain: Bytes, txt: seq<Bytes>) returns (ads: Result<seq<Advertisement>>, skipped: nat)
    ensures ads.Ok? <==> x.normalize(domain).Ok?
    ensures ads.Ok? ==> ads.value == ParsedRecords(x, x.normalize(domain).value, txt) && |ads.value| + skipped == |txt|
  {
    skipped := 0;
    var d := x.normalize(domain);
    if d.Err? {
      return Err, 0;
    }
    var out: seq<Advertisement> := [];
    for i := 0 to |txt|
      invariant ParsedRecords(x, d.value, txt) == out + ParsedRecords(x, d.value, txt[i..])
      invariant |out| + skipped == i
    {
      assert txt[i..][0] == txt[i] && txt[i..][1..] == txt[i + 1..];
      if |txt[i]| > MAX_TEXT {
        skipped := skipped + 1;
      } else {
        var ad := ParseParams(x, txt[i], d.value, false);
        if ad.Err? {
          skipped := skipped + 1;
        } else {
          out := out + [ad.value];
        }
      }
    }
    return Ok(out), skipped;
  }

  // --- writing -----------------------------------------------------------------------------

  function Bit(p: Pair): Bytes { p.key + "=" + p.value }

  function Joined(ps: seq<Pair>): Bytes {
    if ps == [] then [] else if |ps| == 1 then Bit(ps[0]) else Bit(ps[0]) + "; " + Joined(ps[1..])
  }

  function AuthorityBit(a: Bytes): seq<Pair> {
    if a == [] then [] else [Pair("a", a)]
  }

  /** Version first, mode last. */
  function Framed(middle: seq<Pair>, a: Bytes): seq<Pair> {
    [Pair("v", VERSION)] + middle + AuthorityBit(a) + [Pair("mode", MODE)]
  }

  function HeaderMiddle(d: Bytes, id: Bytes): seq<Pair> { [Pair("d", d), Pair("id", Encode(id))] }

  /** The authority a header names: none when it is the domain itself. */
  function NamedAuthority(x: Primitives, d: Bytes, authority: Bytes): Result<Bytes> {
    if authority == [] then Ok([])
    else
      var a :- x.normalize(authority);
      Ok(if a != d then a else [])
  }

  function FormatHeader(x: Primitives, domain: Bytes, id: Bytes, authority: Bytes): Result<Bytes> {
    var d :- x.normalize(domain);
    var a :- NamedAuthority(x, d, authority);
    Ok(Joined(Framed(HeaderMiddle(d, id), a)))
  }

  /** A record always formats: an authority that does not normalize is left out. */
  function RecordAuthority(x: Primitives, authority: Bytes): Bytes {
    if authority == [] then [] else x.normalize(authority).GetOr([])
  }

  function RecordMiddle(fp: Option<Bytes>, id: Bytes): seq<Pair> {
    [if fp.Some? then Pair("fp", Encode(fp.value)) else Pair("id", Encode(id))]
  }

  function FormatDNS(x: Primitives, fp: Option<Bytes>, id: Bytes, authority: Bytes): Bytes {
    Joined(Framed(RecordMiddle(fp, id), RecordAuthority(x, authority)))
  }

  // --- order and spacing -------------------------------------------------------------------

  function Each<T, U>(f: T -> U, s: seq<T>): (r: seq<U>)
    ensures |r| == |s| && forall i :: 0 <= i < |s| ==> r[i] == f(s[i])
  {
    seq(|s|, i requires 0 <= i < |s| => f(s[i]))
  }

  /** The fields and broken parts of a text, counted, without their order. */
  function Said(parts: seq<Bytes>): multiset<Part> {
    multiset(Each(ReadPart, parts))[Blank := 0]
  }

  /** No broken part, and no key said twice or already known. */
  predicate Clean(said: multiset<Part>, fields: FieldMap) {
    && (forall p :: p in said ==> p.Field? && p.key !in fields && said[p] == 1)
    && (forall p, q :: p in said && q in said && p.Field? && q.Field? && q.key == p.key ==> q == p)
  }

  /** `m` holds the fields, what was said, and nothing else. */
  predicate Adds(fields: FieldMap, said: multiset<Part>, m: FieldMap) {
    && (forall k :: k in fields ==> k in m && m[k] == fields[k])
    && (forall p :: p in said && p.Field? ==> p.key in m && m[p.key] == p.value)
    && (forall k :: k in m ==> k in fields || Field(k, m[k]) in said)
  }

  lemma SaidStep(parts: seq<Bytes>)
    requires parts != []
    ensures var p := ReadPart(parts[0]);
      Said(parts) == if p == Blank then Said(parts[1..]) else multiset{p} + Said(parts[1..])
    ensures Blank !in Said(parts[1..])
  {
    var p, rest := ReadPart(parts[0]), Each(ReadPart, parts[1..]);
    assert Each(ReadPart, parts) == [p] + rest;
  }

  /** Collecting depends on what is said only, not on the order: it succeeds on a clean text. */
  lemma {:induction false} CollectedIff(parts: seq<Bytes>, fields: FieldMap)
    ensures Collected(parts, fields).Ok? <==> Clean(Said(parts), fields)
    ensures Collected(parts, fields).Ok? ==> Adds(fields, Said(parts), Collected(parts, fields).value)
  {
    if parts != [] {
      var p, rest := ReadPart(parts[0]), Said(parts[1..]);
      SaidStep(parts);
      if p.Broken? {
        assert p in Said(parts);
      } else if p.Field? {
        assert p in Said(parts);
        if p.key !in fields {
          var more := fields[p.key := p.value];
          CollectedIff(parts[1..], more);
          CleanStep(p, rest, fields);
          if Collected(parts[1..], more).Ok? {
            AddsStep(p, rest, fields, Collected(parts[1..], more).value);
          }
        }
      } else {
        CollectedIff(parts[1..], fields);
      }
    }
  }

  lemma AddsStep(p: Part, rest: multiset<Part>, fields: FieldMap, m: FieldMap)
    requires p.Field? && p.key !in fields && Adds(fields[p.key := p.value], rest, m)
    ensures Adds(fields, multiset{p} + rest, m)
  {
  }

  lemma CleanStep(p: Part, rest: multiset<Part>, fields: FieldMap)
    requires p.Field? && p.key !in fields
    ensures Clean(multiset{p} + rest, fields) <==> Clean(rest, fields[p.key := p.value])
  {
    var said := multiset{p} + rest;
    assert p in said && said[p] == rest[p] + 1;
    if Clean(said, fields) {
      forall q | q in rest ensures q.Field? && q.key !in fields[p.key := p.value] && rest[q] == 1 {
        assert q in said;
      }
    }
    if Clean(rest, fields[p.key := p.value]) {
      forall q | q in said ensures q.Field? && q.key !in fields && said[q] == 1 {
        assert q == p || q in rest;
      }
    }
  }

  lemma AddsOnce(fields: FieldMap, said: multiset<Part>, m: FieldMap, n: FieldMap)
    requires Adds(fields, said, m) && Adds(fields, said, n)
    ensures m == n
  {
    assert forall k :: k in m ==> k in n && n[k] == m[k];
    assert forall k :: k in n ==> k in m;
  }

  /** Two texts that say the same, in whatever order and spacing, mean the same. */
  lemma OrderAndSpacing(x: Primitives, a: Bytes, b: Bytes, domain: Bytes, requireDomain: bool)
    requires Said(Split(a, ';')) == Said(Split(b, ';'))
    ensures ParsedParams(x, a, domain, requireDomain) == ParsedParams(x, b, domain, requireDomain)
    ensures |a| <= MAX_TEXT && |b| <= MAX_TEXT ==> ParsedHeader(x, a) == ParsedHeader(x, b)
  {
    var ps, qs := Split(a, ';'), Split(b, ';');
    CollectedIff(ps, map[]);
    CollectedIff(qs, map[]);
    if Collected(ps, map[]).Ok? {
      AddsOnce(map[], Said(ps), Collected(ps, map[]).value, Collected(qs, map[]).value);
    }
  }

  lemma Pulled<T>(a: seq<T>, x: T, b: seq<T>)
    ensures multiset(a + [x] + b) == multiset{x} + multiset(a + b)
  {
  }

  lemma EachPulled<T, U>(f: T -> U, a: seq<T>, x: T, b: seq<T>)
    ensures multiset(Each(f, a + [x] + b)) == multiset{f(x)} + multiset(Each(f, a + b))
  {
    var p, q := Each(f, a), Each(f, b);
    Pulled(p, f(x), q);
    assert Each(f, a + [x] + b) == p + [f(x)] + q && Each(f, a + b) == p + q;
  }

  lemma Cancelled<T>(x: T, m: multiset<T>, n: multiset<T>)
    requires multiset{x} + m == multiset{x} + n
    ensures m == n
  {
    assert multiset{x} + m - multiset{x} == m && multiset{x} + n - multiset{x} == n;
  }

  /** Where the first element of a sequence sits in a permutation of it. */
  lemma Placed<T>(s: seq<T>, t: seq<T>) returns (a: seq<T>, b: seq<T>)
    requires s != [] && multiset(s) == multiset(t)
    ensures t == a + [s[0]] + b && multiset(s[1..]) == multiset(a + b)
  {
    assert s[0] in multiset(t);
    var i :| 0 <= i < |t| && t[i] == s[0];
    a, b := t[..i], t[i + 1..];
    assert t == a + [s[0]] + b;
    Pulled(a, s[0], b);
    assert s == [s[0]] + s[1..];
    Cancelled(s[0], multiset(s[1..]), multiset(a + b));
  }

  lemma {:induction false} EachPermuted<T, U>(f: T -> U, s: seq<T>, t: seq<T>)
    requires multiset(s) == multiset(t)
    ensures multiset(Each(f, s)) == multiset(Each(f, t))
  {
    if s == [] {
      assert |multiset(t)| == 0;
    } else {
      var a, b := Placed(s, t);
      EachPermuted(f, s[1..], a + b);
      EachPulled(f, a, s[0], b);
      assert Each(f, s) == [f(s[0])] + Each(f, s[1..]);
    }
  }

  /** Any reordering of the parts says the same. */
  lemma Reordered(ps: seq<Bytes>, qs: seq<Bytes>)
    requires multiset(ps) == multiset(qs)
    ensures Said(ps) == Said(qs)
  {
    EachPermuted(ReadPart, ps, qs);
  }

  // --- round trips -------------------------------------------------------------------------

  /** A key and a value the grammar can carry. */
  predicate Plain(p: Pair) {
    && p.key != [] && Tight(p.key) && Without(p.key, '=') && Without(p.key, ';') && Lower(p.key) == p.key
    && Tight(p.value) && Without(p.value, ';')
  }

  lemma BitReads(pad: Bytes, p: Pair)
    requires Plain(p) && AllSpace(pad)
    ensures ReadPart(pad + Bit(p)) == Field(p.key, p.value)
  {
    var b := Bit(p);
    assert b == p.key + ['='] + p.value;
    assert b[0] == p.key[0] && b[|b| - 1] == if p.value == [] then '=' else p.value[|p.value| - 1];
    TrimPadding(pad, b, []);
    assert pad + b + [] == pad + b;
    CutAt(p.key, '=', p.value);
    TrimTight(p.key);
    TrimTight(p.value);
  }

  function Spaced(ps: seq<Pair>): seq<Bytes> {
    if ps == [] then [] else [" " + Bit(ps[0])] + Spaced(ps[1..])
  }

  /** Splitting what was joined gives the bits back, all but the first after a space. */
  lemma {:induction false} SplitJoined(pad: Bytes, ps: seq<Pair>)
    requires ps != [] && Without(pad, ';') && forall i :: 0 <= i < |ps| ==> Plain(ps[i])
    ensures Split(pad + Joined(ps), ';') == [pad + Bit(ps[0])] + Spaced(ps[1..])
    decreases |ps|
  {
    var first := pad + Bit(ps[0]);
    assert Without(first, ';');
    if |ps| == 1 {
      SplitWhole(first, ';');
    } else {
      SplitAt(first, ';', " " + Joined(ps[1..]));
      assert pad + Joined(ps) == first + [';'] + (" " + Joined(ps[1..]));
      SplitJoined(" ", ps[1..]);
    }
  }

  function Added(fields: FieldMap, ps: seq<Pair>): FieldMap
    decreases |ps|
  {
    if ps == [] then fields else Added(fields[ps[0].key := ps[0].value], ps[1..])
  }

  predicate NewKeys(fields: FieldMap, ps: seq<Pair>) {
    && (forall i :: 0 <= i < |ps| ==> ps[i].key !in fields)
    && (forall i, j :: 0 <= i < j < |ps| ==> ps[i].key != ps[j].key)
  }

  lemma {:induction false} CollectedSpaced(ps: seq<Pair>, fields: FieldMap)
    requires NewKeys(fields, ps) && forall i :: 0 <= i < |ps| ==> Plain(ps[i])
    ensures Collected(Spaced(ps), fields) == Ok(Added(fields, ps))
    decreases |ps|
  {
    if ps != [] {
      BitReads(" ", ps[0]);
      assert Spaced(ps)[1..] == Spaced(ps[1..]);
      CollectedSpaced(ps[1..], fields[ps[0].key := ps[0].value]);
    }
  }

  lemma SplitBits(ps: seq<Pair>)
    requires ps != [] && forall i :: 0 <= i < |ps| ==> Plain(ps[i])
    ensures Split(Joined(ps), ';') == [Bit(ps[0])] + Spaced(ps[1..])
  {
    SplitJoined([], ps);
    assert [] + Joined(ps) == Joined(ps) && [] + Bit(ps[0]) == Bit(ps[0]);
  }

  lemma CollectedFirst(part: Bytes, rest: seq<Bytes>, fields: FieldMap, k: Bytes, v: Bytes)
    requires ReadPart(part) == Field(k, v) && k !in fields
    ensures Collected([part] + rest, fields) == Collected(rest, fields[k := v])
  {
    assert ([part] + rest)[1..] == rest;
  }

  /** Every list of distinct plain fields reads back as it was written. */
  lemma JoinedReads(ps: seq<Pair>, none: FieldMap)
    requires ps != [] && NewKeys(none, ps) && forall i :: 0 <= i < |ps| ==> Plain(ps[i])
    ensures Collected(Split(Joined(ps), ';'), none) == Ok(Added(none, ps))
  {
    var first := ps[0];
    SplitBits(ps);
    BitReads([], first);
    assert [] + Bit(first) == Bit(first);
    CollectedFirst(Bit(first), Spaced(ps[1..]), none, first.key, first.value);
    CollectedSpaced(ps[1..], none[first.key := first.value]);
  }

  lemma {:induction false} AddedHas(fields: FieldMap, ps: seq<Pair>)
    requires NewKeys(fields, ps)
    ensures var m := Added(fields, ps);
      && (forall i :: 0 <= i < |ps| ==> ps[i].key in m && m[ps[i].key] == ps[i].value)
      && (forall k :: k in fields ==> k in m && m[k] == fields[k])
      && (forall k :: k in m ==> k in fields || exists i :: 0 <= i < |ps| && ps[i].key == k)
    decreases |ps|
  {
    if ps != [] {
      AddedHas(fields[ps[0].key := ps[0].value], ps[1..]);
    }
  }

  // --- what we write ------------------------------------------------------------------------

  /** A field of ours: the grammar can carry it, and it names no target. */
  predicate Our(p: Pair) { Plain(p) && p.key !in FORBIDDEN }

  predicate Ours(ps: seq<Pair>) {
    NewKeys(map[], ps) && forall i :: 0 <= i < |ps| ==> Our(ps[i])
  }

  lemma FrameOurs()
    ensures Our(Pair("v", VERSION)) && Our(Pair("mode", MODE))
  {
  }

  lemma DomainOurs(d: Bytes)
    requires IsDomain(d)
    ensures Our(Pair("d", d)) && Our(Pair("a", d))
  {
    assert IsDomainByte(d[0]) && IsDomainByte(d[|d| - 1]);
  }

  lemma IdEncodes(id: Bytes)
    requires |id| == HASH_LENGTH
    ensures |Encode(id)| == 43 && Tight(Encode(id)) && Without(Encode(id), ';') && DecodeID(Encode(id)) == Ok(id)
  {
    EncodeSpells(id);
    OneSpelling(Encode(id), HASH_LENGTH, id);
  }

  lemma IdOurs(id: Bytes)
    requires |id| == HASH_LENGTH
    ensures Our(Pair("id", Encode(id)))
  {
    IdEncodes(id);
  }

  lemma FingerprintOurs(fp: Bytes)
    requires |fp| == HASH_LENGTH
    ensures Our(Pair("fp", Encode(fp)))
  {
    IdEncodes(fp);
  }

  predicate OutsideFrame(k: Bytes) { k != "v" && k != "mode" && k != "a" }

  lemma MiddleKeys()
    ensures OutsideFrame("d") && OutsideFrame("id") && OutsideFrame("fp") && "d" != "id" && "d" != "fp" && "id" != "fp"
    ensures "v" != "mode" && "a" != "v" && "a" != "mode"
  {
  }

  predicate Fits(middle: seq<Pair>, a: Bytes) {
    && Ours(middle) && (forall i :: 0 <= i < |middle| ==> OutsideFrame(middle[i].key))
    && (a == [] || IsDomain(a))
  }

  lemma AuthorityBitOurs(a: Bytes)
    requires a == [] || IsDomain(a)
    ensures Ours(AuthorityBit(a))
  {
    if a != [] { DomainOurs(a); }
  }

  lemma OursJoin(a: seq<Pair>, b: seq<Pair>)
    requires Ours(a) && Ours(b) && forall i, j :: 0 <= i < |a| && 0 <= j < |b| ==> a[i].key != b[j].key
    ensures Ours(a + b)
  {
  }

  lemma FramedOurs(middle: seq<Pair>, a: Bytes)
    requires Fits(middle, a)
    ensures Ours(Framed(middle, a))
  {
    FrameOurs();
    AuthorityBitOurs(a);
    MiddleKeys();
    OursJoin([Pair("v", VERSION)], middle);
    OursJoin([Pair("v", VERSION)] + middle, AuthorityBit(a));
    OursJoin([Pair("v", VERSION)] + middle + AuthorityBit(a), [Pair("mode", MODE)]);
  }

  /** The fields hold the pairs and nothing besides. */
  predicate Carries(fields: FieldMap, ps: seq<Pair>) {
    Holds(fields, ps) && forall k :: k in fields ==> Keyed(ps, k)
  }

  lemma OursRead(ps: seq<Pair>)
    requires ps != [] && Ours(ps)
    ensures var r := Collected(Split(Joined(ps), ';'), map[]);
      r.Ok? && Carries(r.value, ps) && r.value.Keys !! FORBIDDEN
  {
    JoinedReads(ps, map[]);
    AddedHas(map[], ps);
  }

  predicate Holds(fields: FieldMap, ps: seq<Pair>) {
    forall i :: 0 <= i < |ps| ==> ps[i].key in fields && fields[ps[i].key] == ps[i].value
  }

  predicate Keyed(ps: seq<Pair>, k: Bytes) {
    exists i :: 0 <= i < |ps| && ps[i].key == k
  }

  lemma KeyedBySeam(a: seq<Pair>, b: seq<Pair>, k: Bytes)
    ensures Keyed(a + b, k) ==> Keyed(a, k) || Keyed(b, k)
  {
    if i :| 0 <= i < |a + b| && (a + b)[i].key == k {
      if i < |a| { assert a[i].key == k; } else { assert b[i - |a|].key == k; }
    }
  }

  lemma HoldsBySeam(fields: FieldMap, a: seq<Pair>, b: seq<Pair>)
    requires Holds(fields, a + b)
    ensures Holds(fields, a) && Holds(fields, b)
  {
    assert forall i :: 0 <= i < |a| ==> (a + b)[i] == a[i];
    assert forall i :: 0 <= i < |b| ==> (a + b)[|a| + i] == b[i];
  }

  lemma Lookups(fields: FieldMap, v: Pair, middle: seq<Pair>, auth: seq<Pair>, m: Pair)
    requires Carries(fields, [v] + middle + auth + [m])
    ensures Holds(fields, [v]) && Holds(fields, middle) && Holds(fields, auth) && Holds(fields, [m])
    ensures forall k :: k in fields ==> k == v.key || k == m.key || Keyed(middle, k) || Keyed(auth, k)
  {
    HoldsBySeam(fields, [v] + middle + auth, [m]);
    HoldsBySeam(fields, [v] + middle, auth);
    HoldsBySeam(fields, [v], middle);
    forall k | k in fields ensures k == v.key || k == m.key || Keyed(middle, k) || Keyed(auth, k) {
      KeyedBySeam([v] + middle + auth, [m], k);
      KeyedBySeam([v] + middle, auth, k);
      KeyedBySeam([v], middle, k);
    }
  }

  /** What the parser finds of the frame. */
  lemma FramedLookups(fields: FieldMap, middle: seq<Pair>, a: Bytes)
    requires Carries(fields, Framed(middle, a))
    ensures Holds(fields, [Pair("v", VERSION)]) && Holds(fields, [Pair("mode", MODE)])
    ensures Holds(fields, middle) && Holds(fields, AuthorityBit(a))
    ensures forall k :: OutsideFrame(k) && k in fields ==> Keyed(middle, k)
    ensures Fits(middle, a) && a == [] ==> "a" !in fields
  {
    Lookups(fields, Pair("v", VERSION), middle, AuthorityBit(a), Pair("mode", MODE));
    MiddleKeys();
  }

  lemma FramedAuthority(x: Primitives, fields: FieldMap, middle: seq<Pair>, d: Bytes, a: Bytes)
    requires Carries(fields, Framed(middle, a)) && Fits(middle, a) && (a != [] ==> Canonical(x, a))
    ensures AuthorityOf(x, fields, d) == Ok(if a == d then [] else a)
  {
    FramedLookups(fields, middle, a);
    if a != [] { assert AuthorityBit(a)[0].key in fields; }
  }

  lemma FoundId(fields: FieldMap, ps: seq<Pair>, i: nat, id: Bytes)
    requires Holds(fields, ps) && i < |ps| && ps[i].value == Encode(id) && |id| == HASH_LENGTH
    ensures IdOf(fields, ps[i].key) == Ok(Some(id))
  {
    IdEncodes(id);
  }

  /** How a meaning is put together. */
  lemma MeaningOf(x: Primitives, fields: FieldMap, domain: Bytes, requireDomain: bool, ad: Advertisement)
    requires Holds(fields, [Pair("v", VERSION)]) && Holds(fields, [Pair("mode", MODE)]) && fields.Keys !! FORBIDDEN
    requires DomainField(x, fields, domain, requireDomain) == Ok(ad.domain)
    requires AuthorityOf(x, fields, ad.domain) == Ok(ad.authority)
    requires IdOf(fields, "fp") == Ok(ad.fp) && IdOf(fields, "id") == Ok(ad.id) && (ad.fp.Some? || ad.id.Some?)
    ensures Meaning(x, fields, domain, requireDomain) == Ok(ad)
  {
    assert [Pair("v", VERSION)][0].key in fields && [Pair("mode", MODE)][0].key in fields;
  }

  function TotalLength(ps: seq<Pair>): nat {
    if ps == [] then 0 else |ps[0].key| + |ps[0].value| + 3 + TotalLength(ps[1..])
  }

  lemma {:induction false} TotalJoin(a: seq<Pair>, b: seq<Pair>)
    ensures TotalLength(a + b) == TotalLength(a) + TotalLength(b)
  {
    if a == [] {
      assert a + b == b;
    } else {
      TotalJoin(a[1..], b);
      assert (a + b)[1..] == a[1..] + b;
    }
  }

  lemma {:induction false} JoinedLength(ps: seq<Pair>)
    requires ps != []
    ensures |Joined(ps)| == TotalLength(ps) - 2
  {
    if |ps| > 1 { JoinedLength(ps[1..]); }
  }

  lemma FramedLength(middle: seq<Pair>, a: Bytes)
    ensures |Joined(Framed(middle, a))| == 19 + TotalLength(middle) + if a == [] then 0 else 4 + |a|
  {
    var v, m := Pair("v", VERSION), Pair("mode", MODE);
    assert |v.key| == 1 && |v.value| == 5 && |m.key| == 4 && |m.value| == 5;
    JoinedLength(Framed(middle, a));
    TotalJoin([v], middle);
    TotalJoin([v] + middle, AuthorityBit(a));
    TotalJoin([v] + middle + AuthorityBit(a), [m]);
  }

  lemma HeaderFits(d: Bytes, id: Bytes, a: Bytes)
    requires IsDomain(d) && |id| == HASH_LENGTH && (a == [] || IsDomain(a))
    ensures Fits(HeaderMiddle(d, id), a) && TotalLength(HeaderMiddle(d, id)) == 52 + |d|
  {
    DomainOurs(d);
    IdOurs(id);
    IdEncodes(id);
    MiddleKeys();
    TotalJoin([Pair("d", d)], [Pair("id", Encode(id))]);
  }

  lemma RecordFits(fp: Option<Bytes>, id: Bytes, a: Bytes)
    requires |id| == HASH_LENGTH && (fp.Some? ==> |fp.value| == HASH_LENGTH) && (a == [] || IsDomain(a))
    ensures Fits(RecordMiddle(fp, id), a) && TotalLength(RecordMiddle(fp, id)) == 48
  {
    if fp.Some? { FingerprintOurs(fp.value); IdEncodes(fp.value); }
    IdOurs(id);
    IdEncodes(id);
    MiddleKeys();
  }

  lemma HeaderMeaning(x: Primitives, fields: FieldMap, d: Bytes, id: Bytes, a: Bytes)
    requires Carries(fields, Framed(HeaderMiddle(d, id), a)) && fields.Keys !! FORBIDDEN
    requires |id| == HASH_LENGTH && IsDomain(d) && Canonical(x, d) && a != d && (a == [] || (IsDomain(a) && Canonical(x, a)))
    ensures Meaning(x, fields, [], true) == Ok(Advertisement(d, a, None, Some(id)))
  {
    var ps := HeaderMiddle(d, id);
    HeaderFits(d, id, a);
    FramedLookups(fields, ps, a);
    FramedAuthority(x, fields, ps, d, a);
    MiddleKeys();
    assert ps[0].key == "d" && ps[1].key == "id";
    FoundId(fields, ps, 1, id);
    MeaningOf(x, fields, [], true, Advertisement(d, a, None, Some(id)));
  }

  lemma RecordMeaning(x: Primitives, fields: FieldMap, d: Bytes, fp: Option<Bytes>, id: Bytes, a: Bytes)
    requires Carries(fields, Framed(RecordMiddle(fp, id), a)) && fields.Keys !! FORBIDDEN
    requires |id| == HASH_LENGTH && (fp.Some? ==> |fp.value| == HASH_LENGTH) && (a == [] || (IsDomain(a) && Canonical(x, a)))
    ensures Meaning(x, fields, d, false)
      == Ok(Advertisement(d, if a == d then [] else a, fp, if fp.Some? then None else Some(id)))
  {
    var ps := RecordMiddle(fp, id);
    RecordFits(fp, id, a);
    FramedLookups(fields, ps, a);
    FramedAuthority(x, fields, ps, d, a);
    MiddleKeys();
    FoundId(fields, ps, 0, if fp.Some? then fp.value else id);
    MeaningOf(x, fields, d, false, Advertisement(d, if a == d then [] else a, fp, if fp.Some? then None else Some(id)));
  }

  lemma HeaderParses(x: Primitives, d: Bytes, id: Bytes, a: Bytes)
    requires |id| == HASH_LENGTH && IsDomain(d) && Canonical(x, d) && a != d && (a == [] || (IsDomain(a) && Canonical(x, a)))
    ensures ParsedParams(x, Joined(Framed(HeaderMiddle(d, id), a)), [], true) == Ok(Advertisement(d, a, None, Some(id)))
  {
    var middle := HeaderMiddle(d, id);
    HeaderFits(d, id, a);
    FramedOurs(middle, a);
    OursRead(Framed(middle, a));
    HeaderMeaning(x, Collected(Split(Joined(Framed(middle, a)), ';'), map[]).value, d, id, a);
  }

  /** A header reads back as the normalized domain, id and authority (none when it is the domain
      itself), exactly when it fits: always without an authority, else up to 437 bytes of names. */
  lemma HeaderRoundTrip(x: Primitives, domain: Bytes, id: Bytes, authority: Bytes)
    requires Sound(x) && |id| == HASH_LENGTH
    requires FormatHeader(x, domain, id, authority).Ok?
    ensures var d := x.normalize(domain).value; var a := NamedAuthority(x, d, authority).value;
      ParsedHeader(x, FormatHeader(x, domain, id, authority).value) == Ok(Advertisement(d, a, None, Some(id)))
      <==> a == [] || |d| + |a| <= 437
  {
    var d := x.normalize(domain).value;
    var a := NamedAuthority(x, d, authority).value;
    HeaderFits(d, id, a);
    FramedLength(HeaderMiddle(d, id), a);
    HeaderParses(x, d, id, a);
  }

  /** Every record a server can publish reads back: one advertisement, nothing skipped. */
  lemma RecordRoundTrip(x: Primitives, domain: Bytes, fp: Option<Bytes>, id: Bytes, authority: Bytes)
    requires Sound(x) && |id| == HASH_LENGTH && (fp.Some? ==> |fp.value| == HASH_LENGTH)
    requires x.normalize(domain).Ok?
    ensures var d := x.normalize(domain).value; var a := RecordAuthority(x, authority);
      ParsedRecords(x, d, [FormatDNS(x, fp, id, authority)])
      == [Advertisement(d, if a == d then [] else a, fp, if fp.Some? then None else Some(id))]
  {
    var d, a := x.normalize(domain).value, RecordAuthority(x, authority);
    var middle := RecordMiddle(fp, id);
    RecordFits(fp, id, a);
    FramedLength(middle, a);
    FramedOurs(middle, a);
    OursRead(Framed(middle, a));
    RecordMeaning(x, Collected(Split(Joined(Framed(middle, a)), ';'), map[]).value, d, fp, id, a);
  }
}
