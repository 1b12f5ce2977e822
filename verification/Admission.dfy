/** Admission control for untrusted sightings (peer/admission.go): repeats are coalesced, and new
    peers are paid for from a token bucket. Tokens are reals; instants and durations are unbounded. */
module Admissions {
  import opened Bytes
  import opened Clock
  import opened PeerModel

  const OBSERVE_INTERVAL := 10 * MINUTE
  const NEW_PEER_BURST := 256
  const NEW_PEER_REFILL := HOUR / 256
  const MAX_TRACKED := 8192

  /** What was last decided about a domain, and on what evidence. */
  datatype Decision = Decision(
    at: Time, manifestId: Bytes, hasId: bool, fingerprint: Bytes, hasFp: bool, source: Source)

  function DecisionOf(o: Observation, now: Time): Decision {
    Decision(now, o.manifestId, o.hasId, o.fingerprint, o.hasFp, o.source)
  }

  predicate SameEvidence(v: Decision, o: Observation) { v == DecisionOf(o, v.at) }

  type Seen = map<Bytes, Decision>

  function Unexpired(seen: Seen, now: Time, interval: int): Seen {
    map d | d in seen && now - seen[d].at < interval :: seen[d]
  }

  function NewerThan(seen: Seen, cutoff: Time): Seen {
    map d | d in seen && seen[d].at > cutoff :: seen[d]
  }

  /** A repeat of what was decided less than an interval ago, by this reading of the clock. */
  predicate Repeat(seen: Seen, domain: Bytes, o: Observation, now: Time, interval: int) {
    domain in seen && SameEvidence(seen[domain], o) && now - seen[domain].at < interval
  }

  // --- the bucket, as values -----------------------------------------------------------------

  /** `lastRefill` is the latest reading of the clock so far. */
  datatype Bucket = Bucket(tokens: real, lastRefill: Time, burst: real, refillEach: int)
  {
    predicate Valid() { 0.0 <= tokens <= burst && 1.0 <= burst && 0 < refillEach }
  }

  function Refilled(b: Bucket, now: Time): Bucket
    requires b.Valid()
  {
    if now <= b.lastRefill then b
    else
      var more := b.tokens + (now - b.lastRefill) as real / b.refillEach as real;
      b.(tokens := if more > b.burst then b.burst else more, lastRefill := now)
  }

  function Spent(b: Bucket): Bucket {
    if b.tokens < 1.0 then b else b.(tokens := b.tokens - 1.0)
  }

  predicate Admits(b: Bucket, now: Time)
    requires b.Valid()
  {
    Refilled(b, now).tokens >= 1.0
  }

  lemma RefillGains(b: Bucket, now: Time)
    requires b.Valid()
    ensures var c := Refilled(b, now);
      && c.Valid() && c.burst == b.burst && c.refillEach == b.refillEach
      && c.lastRefill == (if now > b.lastRefill then now else b.lastRefill)
      && c.tokens - b.tokens <= (c.lastRefill - b.lastRefill) as real / b.refillEach as real
  {
    var gain := (now - b.lastRefill) as real / b.refillEach as real;
    assert now > b.lastRefill ==> gain > 0.0;
  }

  // --- the object ------------------------------------------------------------------------------

  class Admission {
    const interval: int
    const burst: real
    const refillEach: int
    var seen: Seen
    var tokens: real
    var lastRefill: Time

    function View(): Bucket
      reads this
    {
      Bucket(tokens, lastRefill, burst, refillEach)
    }

    predicate Valid()
      reads this
    {
      interval > 0 && View().Valid() && |seen| <= MAX_TRACKED
    }

    /** newAdmission: anything not positive takes its default. */
    constructor (interval: int, burst: int, refillEach: int, now: Time)
      ensures Valid() && seen == map[] && lastRefill == now && tokens == this.burst
      ensures interval > 0 ==> this.interval == interval
      ensures burst > 0 ==> this.burst == burst as real
      ensures refillEach > 0 ==> this.refillEach == refillEach
    {
      this.interval := if interval <= 0 then OBSERVE_INTERVAL else interval;
      this.burst := if burst <= 0 then NEW_PEER_BURST as real else burst as real;
      this.refillEach := if refillEach <= 0 then NEW_PEER_REFILL else refillEach;
      this.seen, this.lastRefill := map[], now;
      this.tokens := if burst <= 0 then NEW_PEER_BURST as real else burst as real;
    }

    method AllowObservation(domain: Bytes, o: Observation, now: Time) returns (ok: bool)
      requires Valid()
      modifies this`seen
      ensures Valid()
      ensures ok <==> !Repeat(old(seen), domain, o, now, interval)
      ensures !ok ==> seen == old(seen)
      ensures ok ==> domain in seen && seen[domain] == DecisionOf(o, now)
      ensures forall d :: d in seen && d != domain ==> d in old(seen) && seen[d] == old(seen)[d]
    {
      if domain in seen {
        var v := seen[domain];
        if v.source == o.source && v.hasId == o.hasId && v.manifestId == o.manifestId
           && v.hasFp == o.hasFp && v.fingerprint == o.fingerprint && now - v.at < interval {
          return false;
        }
      }
      Sweep(now);
      seen := seen[domain := DecisionOf(o, now)];
      return true;
    }

    method AllowNewPeer(now: Time) returns (ok: bool)
      requires Valid()
      modifies this`tokens, this`lastRefill
      ensures Valid()
      ensures ok <==> Admits(old(View()), now)
      ensures View() == Spent(Refilled(old(View()), now))
    {
      RefillGains(View(), now);
      var elapsed := now - lastRefill;
      if elapsed > 0 {
        tokens := tokens + elapsed as real / refillEach as real;
        if tokens > burst {
          tokens := burst;
        }
        lastRefill := now;
      }
      if tokens < 1.0 {
        return false;
      }
      tokens := tokens - 1.0;
      return true;
    }

    method Forget(domain: Bytes)
      requires Valid()
      modifies this`seen
      ensures Valid() && seen == old(seen) - {domain}
    {
      seen := seen - {domain};
    }

    /** sweepLocked: room for one more afterwards, whatever the entries and the clock say. */
    method Sweep(now: Time)
      requires Valid()
      modifies this`seen
      ensures Valid() && |seen| < MAX_TRACKED
      ensures |old(seen)| < MAX_TRACKED ==> seen == old(seen)
      ensures |old(seen)| == MAX_TRACKED ==>
        var young := Unexpired(old(seen), now, interval);
        if |young| < MAX_TRACKED then seen == young else exists cutoff :: seen == NewerThan(young, cutoff)
    {
      if |seen| < MAX_TRACKED {
        return;
      }
      DropExpired(now);
      if |seen| < MAX_TRACKED {
        return;
      }
      var oldest, newest := Extremes();
      var cutoff := oldest + (newest - oldest) / 4;
      DropUpTo(cutoff);
    }

    /** The deletions, in whatever order the map is ranged over. */
    method DropExpired(now: Time)
      modifies this`seen
      ensures seen == Unexpired(old(seen), now, interval) && |seen| <= |old(seen)|
    {
      ghost var before := seen;
      var todo := seen.Keys;
      while todo != {}
        invariant todo <= seen.Keys <= before.Keys
        invariant forall d :: d in seen ==> seen[d] == before[d]
        invariant forall d :: d in before && d !in todo ==> (d in seen <==> now - before[d].at < interval)
        decreases todo
      {
        var d :| d in todo;
        if now - seen[d].at >= interval {
          seen := seen - {d};
        }
        todo := todo - {d};
      }
      Smaller(seen, before);
    }

    /** The oldest and newest decisions as the code finds them: `oldest` restarts whenever it is
        the zero time, so it is the time of some entry, not always the least. */
    method Extremes() returns (oldest: Time, newest: Time)
      requires seen != map[]
      ensures oldest <= newest && exists d :: d in seen && seen[d].at == oldest
    {
      oldest, newest := 0, 0;
      var todo := seen.Keys;
      while todo != {}
        invariant todo <= seen.Keys
        invariant forall d :: d in seen && d !in todo ==> seen[d].at <= newest
        invariant todo == seen.Keys ==> oldest == 0
        invariant todo != seen.Keys ==> exists d :: d in seen && d !in todo && seen[d].at == oldest
        decreases todo
      {
        var d :| d in todo;
        var at := seen[d].at;
        if oldest == 0 || at < oldest {
          oldest := at;
        }
        if at > newest {
          newest := at;
        }
        todo := todo - {d};
      }
    }

    method DropUpTo(cutoff: Time)
      requires exists d :: d in seen && seen[d].at <= cutoff
      modifies this`seen
      ensures seen == NewerThan(old(seen), cutoff) && |seen| < |old(seen)|
    {
      ghost var before := seen;
      var todo := seen.Keys;
      while todo != {}
        invariant todo <= seen.Keys <= before.Keys
        invariant forall d :: d in seen ==> seen[d] == before[d]
        invariant forall d :: d in before && d !in todo ==> (d in seen <==> before[d].at > cutoff)
        decreases todo
      {
        var d :| d in todo;
        if seen[d].at <= cutoff {
          seen := seen - {d};
        }
        todo := todo - {d};
      }
      Smaller(seen, before);
    }

    static lemma Smaller(a: Seen, b: Seen)
      requires a.Keys <= b.Keys
      ensures |a| <= |b| && (|a| == |b| ==> a.Keys == b.Keys)
    {
      assert |a| == |a.Keys| && |b| == |b.Keys| && |b.Keys - a.Keys| == |b.Keys| - |a.Keys|;
    }
  }

  // --- what the bucket promises --------------------------------------------------------------

  function AfterCalls(b: Bucket, nows: seq<Time>): Bucket
    requires b.Valid()
    ensures AfterCalls(b, nows).Valid()
    decreases |nows|
  {
    if nows == [] then b
    else
      var before := AfterCalls(b, nows[..|nows| - 1]);
      RefillGains(before, nows[|nows| - 1]);
      Spent(Refilled(before, nows[|nows| - 1]))
  }

  /** How many of the calls were let through. */
  function Admitted(b: Bucket, nows: seq<Time>): nat
    requires b.Valid()
    decreases |nows|
  {
    if nows == [] then 0
    else
      var init, now := nows[..|nows| - 1], nows[|nows| - 1];
      Admitted(b, init) + if Admits(AfterCalls(b, init), now) then 1 else 0
  }

  /** The clock's high-water mark. */
  function HighWater(start: Time, nows: seq<Time>): Time
    decreases |nows|
  {
    if nows == [] then start
    else
      var high := HighWater(start, nows[..|nows| - 1]);
      if nows[|nows| - 1] > high then nows[|nows| - 1] else high
  }

  lemma SharesAdd(a: int, b: int, c: int, each: int)
    requires each > 0
    ensures (a - b) as real / each as real + (b - c) as real / each as real == (a - c) as real / each as real
  {
  }

  /** Tokens are neither made nor lost: what was admitted was in the bucket or came with time. */
  lemma {:induction false} TokensBalance(b: Bucket, nows: seq<Time>)
    requires b.Valid()
    ensures var c := AfterCalls(b, nows);
      && c.burst == b.burst && c.refillEach == b.refillEach && c.lastRefill == HighWater(b.lastRefill, nows)
      && Admitted(b, nows) as real + c.tokens <= b.tokens + (c.lastRefill - b.lastRefill) as real / b.refillEach as real
    decreases |nows|
  {
    if nows != [] {
      var init, now := nows[..|nows| - 1], nows[|nows| - 1];
      TokensBalance(b, init);
      var mid := AfterCalls(b, init);
      RefillGains(mid, now);
      SharesAdd(Refilled(mid, now).lastRefill, mid.lastRefill, b.lastRefill, b.refillEach);
    }
  }

  /** Over any window of calls, whatever the clock does, at most a burst and what the advance of
      its high-water mark pays for is admitted. A clock going back pays for nothing. */
  lemma WindowBound(b: Bucket, nows: seq<Time>)
    requires b.Valid()
    ensures Admitted(b, nows) as real
      <= b.burst + (HighWater(b.lastRefill, nows) - b.lastRefill) as real / b.refillEach as real
  {
    TokensBalance(b, nows);
  }

  lemma ShareAtLeastOne(a: real, b: real)
    requires a >= b > 0.0
    ensures a / b >= 1.0
  {
    var q := a / b;
    assert q * b == a;
    assert (q - 1.0) * b == a - b >= 0.0;
  }

  /** And the bucket does not starve: a refill period after the high-water mark, a call passes. */
  lemma RefillAdmits(b: Bucket, now: Time)
    requires b.Valid() && now >= b.lastRefill + b.refillEach
    ensures Admits(b, now)
  {
    ShareAtLeastOne((now - b.lastRefill) as real, b.refillEach as real);
  }

  // --- what the memory promises ----------------------------------------------------------------

  /** Evicting can only cause a domain to be looked at again: nothing is refused for it. */
  lemma EvictionNeverRefuses(seen: Seen, kept: Seen, domain: Bytes, o: Observation, now: Time, interval: int)
    requires forall d :: d in kept ==> d in seen && kept[d] == seen[d]
    ensures Repeat(kept, domain, o, now, interval) ==> Repeat(seen, domain, o, now, interval)
  {
  }
}
