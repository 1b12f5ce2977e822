/** Where a walk can end: only at the end of a chain of signatures that starts at the pin. */
module ChainSoundness {
  import opened Bytes
  import opened Options
  import opened MsgPack
  import opened MsgPackProofs
  import opened Clock
  import opened Mailkey
  import opened Identity
  import opened ChainWalk

  /** The identity in force after a statement. */
  function NextFP(s: Statement, fp: Bytes): Bytes { if s.Terminal() then fp else s.newFP }
  function NextPK(s: Statement, pk: Bytes): Bytes { if s.Terminal() then pk else s.newPK }

  /** Entry by entry, `path` descends from (fp, pk): each statement is in force, names the
      identity in force, verifies under its key, and a terminal revocation comes last. */
  predicate Linked(x: Primitives, chain: seq<Statement>, now: Time, fp: Bytes, pk: Bytes, path: seq<nat>)
    decreases |path|
  {
    path == [] ||
    (&& path[0] < |chain|
     && var s := chain[path[0]];
     && s.oldFP == fp && InForce(s, now) && Verified(x, s, pk)
     && (s.Terminal() ==> |path| == 1)
     && Linked(x, chain, now, NextFP(s, fp), NextPK(s, pk), path[1..]))
  }

  predicate EndsAt(chain: seq<Statement>, fp: Bytes, pk: Bytes, path: seq<nat>, endFP: Bytes, endPK: Bytes)
    decreases |path|
  {
    if path == [] then
      fp == endFP && pk == endPK
    else
      && path[0] < |chain|
      && EndsAt(chain, NextFP(chain[path[0]], fp), NextPK(chain[path[0]], pk), path[1..], endFP, endPK)
  }

  predicate Distinct(path: seq<nat>) {
    forall i, j :: 0 <= i < j < |path| ==> path[i] != path[j]
  }

  predicate LastTerminal(chain: seq<Statement>, path: seq<nat>) {
    path != [] && path[|path| - 1] < |chain| && chain[path[|path| - 1]].Terminal()
  }

  function Entries(path: seq<nat>): set<nat> { set i | i in path }

  /** Why a walk stops, the entries of `spent` being used up: at a terminal revocation, at an
      entry that claims to descend and does not verify, or because no unused entry in force
      descends from where it stands. */
  predicate Stops(x: Primitives, chain: seq<Statement>, now: Time, w: Walked, spent: set<nat>) {
    match w.error
    case NoError => w.result.revoked ||
      forall i :: 0 <= i < |chain| ==> !Eligible(chain, i, w.result.fingerprint, spent, now)
    case Broken => exists i :: 0 <= i < |chain| && Eligible(chain, i, w.result.fingerprint, spent, now)
                               && !Verified(x, chain[i], w.result.publicKey)
    case TooLong => |chain| > MAX_CHAIN_ENTRIES
  }

  /** The entries a walk applies, in order. */
  function PathFrom(x: Primitives, chain: seq<Statement>, used: set<nat>, out: ChainResult, now: Time): seq<nat>
    decreases Indices(|chain|) - used
  {
    var i := FirstEligible(chain, 0, out.fingerprint, used, now);
    if i == |chain| || !Verified(x, chain[i], out.publicKey) then []
    else if chain[i].Terminal() then [i]
    else
      assert i in Indices(|chain|) - used;
      [i] + PathFrom(x, chain, used + {i}, Apply(out, chain[i]), now)
  }

  lemma {:induction false} PathDistinct(x: Primitives, chain: seq<Statement>, used: set<nat>, out: ChainResult, now: Time)
    ensures var path := PathFrom(x, chain, used, out, now);
      Distinct(path) && forall i :: 0 <= i < |path| ==> path[i] !in used
    decreases Indices(|chain|) - used
  {
    var i := FirstEligible(chain, 0, out.fingerprint, used, now);
    if i < |chain| && Verified(x, chain[i], out.publicKey) && !chain[i].Terminal() {
      assert i in Indices(|chain|) - used;
      PathDistinct(x, chain, used + {i}, Apply(out, chain[i]), now);
    }
  }

  /** One entry in front of a path. */
  lemma LinkedCons(x: Primitives, chain: seq<Statement>, now: Time, i: nat, rest: seq<nat>, fp: Bytes, pk: Bytes, endFP: Bytes, endPK: Bytes)
    requires i < |chain| && chain[i].oldFP == fp && InForce(chain[i], now) && Verified(x, chain[i], pk) && !chain[i].Terminal()
    requires Linked(x, chain, now, chain[i].newFP, chain[i].newPK, rest)
    requires EndsAt(chain, chain[i].newFP, chain[i].newPK, rest, endFP, endPK)
    ensures Linked(x, chain, now, fp, pk, [i] + rest) && EndsAt(chain, fp, pk, [i] + rest, endFP, endPK)
    ensures LastTerminal(chain, [i] + rest) <==> LastTerminal(chain, rest)
  {
    assert ([i] + rest)[1..] == rest;
  }

  lemma {:induction false} WalkFromSound(x: Primitives, chain: seq<Statement>, used: set<nat>, out: ChainResult, now: Time)
    requires !out.revoked
    ensures var w := WalkFrom(x, chain, used, out, now); var path := PathFrom(x, chain, used, out, now);
      && Linked(x, chain, now, out.fingerprint, out.publicKey, path)
      && EndsAt(chain, out.fingerprint, out.publicKey, path, w.result.fingerprint, w.result.publicKey)
      && w.result.applied == out.applied + |path|
      && (w.result.revoked <==> LastTerminal(chain, path))
    decreases Indices(|chain|) - used
  {
    var i := FirstEligible(chain, 0, out.fingerprint, used, now);
    if i < |chain| && Verified(x, chain[i], out.publicKey) && !chain[i].Terminal() {
      var next := Apply(out, chain[i]);
      var end := WalkFrom(x, chain, used + {i}, next, now).result;
      WalkFromSound(x, chain, used + {i}, next, now);
      LinkedCons(x, chain, now, i, PathFrom(x, chain, used + {i}, next, now), out.fingerprint, out.publicKey, end.fingerprint, end.publicKey);
    }
  }

  lemma {:induction false} WalkFromStops(x: Primitives, chain: seq<Statement>, used: set<nat>, out: ChainResult, now: Time)
    requires !out.revoked
    ensures Stops(x, chain, now, WalkFrom(x, chain, used, out, now), used + Entries(PathFrom(x, chain, used, out, now)))
    decreases Indices(|chain|) - used
  {
    var i := FirstEligible(chain, 0, out.fingerprint, used, now);
    if i == |chain| || !Verified(x, chain[i], out.publicKey) {
      assert used + Entries([]) == used;
    } else if !chain[i].Terminal() {
      var rest := PathFrom(x, chain, used + {i}, Apply(out, chain[i]), now);
      WalkFromStops(x, chain, used + {i}, Apply(out, chain[i]), now);
      assert used + Entries([i] + rest) == used + {i} + Entries(rest);
    }
  }

  /** Whether it succeeds or fails, a walk reports the end of a path of distinct, in-force,
      verified statements from the pin, revoked exactly when the last one is terminal; and the
      path is as long as it can be: what is left either does not descend from its end, or claims
      to and does not verify. */
  lemma WalkSound(x: Primitives, pin: Bytes, pinPK: Bytes, chain: seq<Statement>, now: Time) returns (path: seq<nat>)
    ensures var w := Walk(x, pin, pinPK, chain, now);
      && Linked(x, chain, now, pin, pinPK, path) && Distinct(path)
      && EndsAt(chain, pin, pinPK, path, w.result.fingerprint, w.result.publicKey)
      && w.result.applied == |path|
      && (w.result.revoked <==> LastTerminal(chain, path))
      && Stops(x, chain, now, w, Entries(path))
  {
    if |chain| > MAX_CHAIN_ENTRIES {
      path := [];
    } else {
      path := PathFrom(x, chain, {}, Start(pin, pinPK), now);
      WalkFromSound(x, chain, {}, Start(pin, pinPK), now);
      PathDistinct(x, chain, {}, Start(pin, pinPK), now);
      WalkFromStops(x, chain, {}, Start(pin, pinPK), now);
      assert {} + Entries(path) == Entries(path);
    }
  }

  // --- the domain ------------------------------------------------------------------

  lemma FingerprintPreimageInjective(d: Bytes, pk: Bytes, e: Bytes, qk: Bytes)
    requires |d| < 0x1_0000_0000 && |e| < 0x1_0000_0000 && |pk| == 32 && |qk| == 32
    requires FingerprintPreimage(d, pk) == FingerprintPreimage(e, qk)
    ensures d == e && pk == qk
  {
    var v := Map([Entry("alg", Str(ALG)), Entry("domain", Str(d)), Entry("pk", Bin(pk)), Entry("type", Str(FINGERPRINT_TYPE))]);
    var w := Map([Entry("alg", Str(ALG)), Entry("domain", Str(e)), Entry("pk", Bin(qk)), Entry("type", Str(FINGERPRINT_TYPE))]);
    PackPrefixFree(v, w, [], []);
    assert v.entries[1] == w.entries[1] && v.entries[2] == w.entries[2];
  }

  /** The keys a walk of this chain can stand on. */
  function Keys(pinPK: Bytes, chain: seq<Statement>): set<Bytes> {
    {pinPK} + set s | s in chain :: s.newPK
  }

  /** SHA-256 does not confuse domain `d` with the domain of a chain entry under such a key. */
  ghost predicate DomainsApart(x: Primitives, d: Bytes, pinPK: Bytes, chain: seq<Statement>) {
    forall s, k :: s in chain && k in Keys(pinPK, chain) && x.normalize(s.domain).Ok?
      && x.sha256(FingerprintPreimage(d, k)) == x.sha256(FingerprintPreimage(x.normalize(s.domain).value, k))
      ==> FingerprintPreimage(d, k) == FingerprintPreimage(x.normalize(s.domain).value, k)
  }

  predicate ForDomain(x: Primitives, s: Statement, domain: Bytes) {
    x.normalize(s.domain).Ok? && x.normalize(s.domain) == x.normalize(domain)
  }

  lemma StepSameDomain(x: Primitives, chain: seq<Statement>, domain: Bytes, pinPK: Bytes, s: Statement, pk: Bytes)
    requires Sound(x) && s in chain && pk in Keys(pinPK, chain) && Verified(x, s, pk)
    requires FingerprintOf(x, domain, pk) == Ok(s.oldFP)
    requires DomainsApart(x, x.normalize(domain).value, pinPK, chain)
    ensures ForDomain(x, s, domain)
    ensures !s.Terminal() ==> FingerprintOf(x, domain, s.newPK) == Ok(s.newFP)
  {
    var d, e := x.normalize(domain).value, x.normalize(s.domain).value;
    FingerprintPreimageInjective(d, pk, e, pk);
  }

  lemma {:induction false} LinkedSameDomain(
    x: Primitives, chain: seq<Statement>, now: Time, domain: Bytes, pinPK: Bytes, fp: Bytes, pk: Bytes, path: seq<nat>)
    requires Sound(x) && Linked(x, chain, now, fp, pk, path)
    requires FingerprintOf(x, domain, pk) == Ok(fp) && pk in Keys(pinPK, chain)
    requires DomainsApart(x, x.normalize(domain).value, pinPK, chain)
    ensures forall i :: 0 <= i < |path| ==> path[i] < |chain| && ForDomain(x, chain[path[i]], domain)
    ensures forall endFP, endPK :: EndsAt(chain, fp, pk, path, endFP, endPK) ==> FingerprintOf(x, domain, endPK) == Ok(endFP)
    decreases |path|
  {
    if path != [] {
      var s := chain[path[0]];
      StepSameDomain(x, chain, domain, pinPK, s, pk);
      LinkedSameDomain(x, chain, now, domain, pinPK, NextFP(s, fp), NextPK(s, pk), path[1..]);
      assert forall i :: 0 < i < |path| ==> path[i] == path[1..][i - 1];
    }
  }

  /** No domain is compared anywhere in the walk, yet from a pin that is the fingerprint of its
      key for `domain`, every applied statement is for `domain`, and so is the end. */
  lemma WalkStaysInDomain(
    x: Primitives, domain: Bytes, pin: Bytes, pinPK: Bytes, chain: seq<Statement>, now: Time) returns (path: seq<nat>)
    requires Sound(x) && FingerprintOf(x, domain, pinPK) == Ok(pin)
    requires DomainsApart(x, x.normalize(domain).value, pinPK, chain)
    ensures var w := Walk(x, pin, pinPK, chain, now);
      && Linked(x, chain, now, pin, pinPK, path) && |path| == w.result.applied
      && (forall i :: 0 <= i < |path| ==> path[i] < |chain| && ForDomain(x, chain[path[i]], domain))
      && FingerprintOf(x, domain, w.result.publicKey) == Ok(w.result.fingerprint)
  {
    path := WalkSound(x, pin, pinPK, chain, now);
    LinkedSameDomain(x, chain, now, domain, pinPK, pin, pinPK, path);
  }
}
