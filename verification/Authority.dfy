/** What the authority client establishes about a response once its body is read
    (resolver/resolver.go), and the names it derives (discovery/discovery.go). */
module Authority {
  import opened Bytes
  import opened Options
  import opened Text
  import opened Clock
  import opened MsgPack
  import opened Mailkey
  import opened Manifests
  import opened ManifestProofs
  import opened Identity
  import opened Proofs

  const HOST_PREFIX: Bytes := "mail"

  /** The only host asked for a domain, delegated or not. */
  function AuthorityHost(x: Primitives, domain: Bytes, authority: Bytes): Result<Bytes> {
    var d :- x.normalize(domain);
    if authority == [] then Ok(HOST_PREFIX + "." + d)
    else
      var a :- x.normalize(authority);
      Ok(HOST_PREFIX + "." + a)
  }

  datatype Limits = Limits(maxLifetime: int, maxClockSkew: int)

  /** manifest.Validate. */
  predicate InValidity(m: Manifest, now: Time, limits: Limits) {
    && m.expiresAt > m.issuedAt
    && (limits.maxLifetime > 0 ==> m.expiresAt - m.issuedAt <= limits.maxLifetime)
    && m.issuedAt <= now + limits.maxClockSkew
    && m.expiresAt > now
  }

  /** The hosts a manifest consents to being served from. */
  function ConsentingDomains(m: Manifest): seq<Bytes> {
    if m.authority == [] then [m.domain] else m.authority
  }

  predicate Consents(x: Primitives, m: Manifest, host: Bytes) {
    exists i :: 0 <= i < |ConsentingDomains(m)| &&
      var h := AuthorityHost(x, ConsentingDomains(m)[i], []); h.Ok? && Lower(h.value) == Lower(host)
  }

  method CheckAuthorityConsent(x: Primitives, m: Manifest, host: Bytes) returns (ok: bool)
    ensures ok <==> Consents(x, m, host)
  {
    var allowed := ConsentingDomains(m);
    for i := 0 to |allowed|
      invariant forall j :: 0 <= j < i ==>
        var h := AuthorityHost(x, allowed[j], []); !(h.Ok? && Lower(h.value) == Lower(host))
    {
      var h := AuthorityHost(x, allowed[i], []);
      if h.Ok? && Lower(h.value) == Lower(host) {
        return true;
      }
    }
    return false;
  }

  // --- Cache-Control -----------------------------------------------------------------------

  function Digits(s: Bytes): Option<nat> {
    if s == [] then Some(0)
    else if !('0' <= s[|s| - 1] <= '9') then None
    else
      var high :- Digits(s[..|s| - 1]);
      Some(high * 10 + (s[|s| - 1] as int - 48))
  }

  /** strconv.Atoi: an optional sign, then digits, within 64 bits. */
  function Atoi(s: Bytes): Option<int> {
    var signed := s != [] && (s[0] == '+' || s[0] == '-');
    var digits := if signed then s[1..] else s;
    if digits == [] then None
    else
      var n :- Digits(digits);
      var m: int := n;
      var v := if signed && s[0] == '-' then -m else m;
      if IsInt64(v) then Some(v) else None
  }

  /** The seconds one directive grants, if it is a usable max-age. */
  function MaxAge(part: Bytes): Option<nat> {
    var kv :- Text.Cut(Trim(part), '=');
    var n :- Atoi(Trim(kv.value));
    if Trim(kv.key) == "max-age" && n >= 0 then Some(n) else None
  }

  /** The first directive that shortens the life wins; none can lengthen it. */
  function Shortened(parts: seq<Bytes>, expiresAt: Time, now: Time): Time {
    if parts == [] then expiresAt
    else
      var age := MaxAge(parts[0]);
      if age.Some? && now + age.value * SECOND < expiresAt then now + age.value * SECOND
      else Shortened(parts[1..], expiresAt, now)
  }

  function CacheUntil(expiresAt: Time, now: Time, cacheControl: Bytes): Time {
    if cacheControl == [] then expiresAt else Shortened(Split(cacheControl, ','), expiresAt, now)
  }

  method ComputeCacheUntil(expiresAt: Time, now: Time, cacheControl: Bytes) returns (until: Time)
    ensures until == CacheUntil(expiresAt, now, cacheControl)
  {
    if cacheControl == [] {
      return expiresAt;
    }
    var parts := Split(cacheControl, ',');
    for i := 0 to |parts|
      invariant Shortened(parts, expiresAt, now) == Shortened(parts[i..], expiresAt, now)
    {
      assert parts[i..][0] == parts[i] && parts[i..][1..] == parts[i + 1..];
      var age := MaxAge(parts[i]);
      if age.Some? && now + age.value * SECOND < expiresAt {
        return now + age.value * SECOND;
      }
    }
    return expiresAt;
  }

  /** The cache never outlives the manifest, and is never cut to before the fetch. */
  lemma {:induction false} ShortenedBounds(parts: seq<Bytes>, expiresAt: Time, now: Time)
    requires now <= expiresAt
    ensures now <= Shortened(parts, expiresAt, now) <= expiresAt
  {
    if parts != [] {
      ShortenedBounds(parts[1..], expiresAt, now);
    }
  }

  /** The directive grants less life than the manifest has left. */
  predicate Shortens(part: Bytes, expiresAt: Time, now: Time) {
    MaxAge(part).Some? && now + MaxAge(part).value * SECOND < expiresAt
  }

  /** A max-age of nothing ends the cache at once, unless a directive before it has already
      shortened its life: the first that does wins. */
  lemma {:induction false} MaxAgeZero(parts: seq<Bytes>, i: nat, expiresAt: Time, now: Time)
    requires i < |parts| && MaxAge(parts[i]) == Some(0) && now < expiresAt
    requires forall j :: 0 <= j < i ==> !Shortens(parts[j], expiresAt, now)
    ensures Shortened(parts, expiresAt, now) == now
  {
    if i > 0 {
      MaxAgeZero(parts[1..], i - 1, expiresAt, now);
    }
  }

  // --- a response in hand --------------------------------------------------------------------

  const PROOF_MALFORMED: Bytes := "malformed"
  const PROOF_INCONSISTENT: Bytes := "inconsistent"

  /** The proof read from the same response: valid, broken, or none. */
  function ReadIdentity(x: Primitives, d: Bytes, body: Bytes, fields: HeaderFields): (Option<Proof>, Bytes) {
    match ReadProof(fields)
    case Absent => (None, [])
    case Malformed => (None, PROOF_MALFORMED)
    case Present(p) => if Consistent(x, p, d, body) then (Some(p), []) else (None, PROOF_INCONSISTENT)
  }

  /** fetch, from the moment the body is read. */
  function Received(
    x: Primitives, d: Bytes, host: Bytes, body: Bytes, fields: HeaderFields, cacheControl: Bytes, now: Time, limits: Limits)
    : Result<Fetched>
  {
    var m :- Parsed(x, body, d);
    var _ :- Need(InValidity(m, now, limits) && Consents(x, m, host));
    var (proof, broken) := ReadIdentity(x, d, body, fields);
    Ok(Fetched(m, ManifestIDOf(x, body), body, now, CacheUntil(m.expiresAt, now, cacheControl), host, proof, broken))
  }

  /** What the rest of the system may assume of a fetch. */
  predicate Vouched(x: Primitives, d: Bytes, r: Fetched) {
    && Parsed(x, r.raw, d) == Ok(r.manifest) && r.manifest.domain == d
    && r.id == ManifestIDOf(x, r.raw)
    && 0 < r.manifest.issuedAt < r.manifest.expiresAt
    && r.fetchedAt < r.manifest.expiresAt && r.expiresAt <= r.manifest.expiresAt
    && (r.proof.Some? ==> r.proofError == [] && Consistent(x, r.proof.value, d, r.raw))
  }

  /** Every accepted response is vouched for, its manifest consents to the host it came from,
      and a proof that was present and wrong is kept apart from a missing one. */
  lemma ReceivedIsVouched(
    x: Primitives, d: Bytes, host: Bytes, body: Bytes, fields: HeaderFields, cacheControl: Bytes, now: Time, limits: Limits)
    requires d != [] && 0 < limits.maxLifetime <= now
    requires Received(x, d, host, body, fields, cacheControl, now, limits).Ok?
    ensures var r := Received(x, d, host, body, fields, cacheControl, now, limits).value;
      && Vouched(x, d, r) && Consents(x, r.manifest, r.host)
      && (r.proof.None? && r.proofError == [] <==> ReadProof(fields).Absent?)
      && r.fetchedAt <= r.expiresAt
  {
    ParsedSound(x, body, d);
    var m := Parsed(x, body, d).value;
    if cacheControl != [] {
      ShortenedBounds(Split(cacheControl, ','), m.expiresAt, now);
    }
  }
}
