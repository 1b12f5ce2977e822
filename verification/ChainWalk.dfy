/** Following a domain's identity history forward from a local pin
    (identity/rotation_verify.go). */
module ChainWalk {
  import opened Bytes
  import opened Options
  import opened Clock
  import opened Mailkey
  import opened Identity

  const MAX_CHAIN_ENTRIES := 32

  datatype ChainResult = ChainResult(fingerprint: Bytes, publicKey: Bytes, applied: nat, revoked: bool, reason: Bytes)

  datatype WalkError = NoError | TooLong | Broken

  datatype Walked = Walked(result: ChainResult, error: WalkError)

  /** Effective at `now`: staged statements wait, rotations lapse, revocations never do. */
  predicate InForce(s: Statement, now: Time) {
    s.notBefore <= now && (s.IsRevocation() || s.expiresAt == 0 || s.expiresAt > now)
  }

  predicate Eligible(chain: seq<Statement>, i: nat, fp: Bytes, used: set<nat>, now: Time)
    requires i < |chain|
  {
    i !in used && chain[i].oldFP == fp && InForce(chain[i], now)
  }

  /** The first eligible entry at or after `i`; the chain's length when there is none. */
  function FirstEligible(chain: seq<Statement>, i: nat, fp: Bytes, used: set<nat>, now: Time): (k: nat)
    requires i <= |chain|
    ensures i <= k <= |chain|
    ensures k < |chain| ==> Eligible(chain, k, fp, used, now)
    ensures forall j :: i <= j < k ==> !Eligible(chain, j, fp, used, now)
    decreases |chain| - i
  {
    if i == |chain| || Eligible(chain, i, fp, used, now) then i
    else FirstEligible(chain, i + 1, fp, used, now)
  }

  /** What a verified statement does to the walk. */
  function Apply(out: ChainResult, s: Statement): ChainResult {
    if s.Terminal() then out.(applied := out.applied + 1, revoked := true, reason := s.reason)
    else ChainResult(s.newFP, s.newPK, out.applied + 1, false, [])
  }

  function Indices(n: nat): (s: set<nat>)
    ensures forall i: nat :: i in s <==> i < n
  {
    if n == 0 then {} else Indices(n - 1) + {n - 1}
  }

  /** The walk from an intermediate point, `used` being the entries already applied. */
  function WalkFrom(x: Primitives, chain: seq<Statement>, used: set<nat>, out: ChainResult, now: Time): Walked
    decreases Indices(|chain|) - used
  {
    var i := FirstEligible(chain, 0, out.fingerprint, used, now);
    if i == |chain| then Walked(out, NoError)
    else if !Verified(x, chain[i], out.publicKey) then Walked(out, Broken)
    else if chain[i].Terminal() then Walked(Apply(out, chain[i]), NoError)
    else
      assert i in Indices(|chain|) - used && i !in Indices(|chain|) - (used + {i});
      WalkFrom(x, chain, used + {i}, Apply(out, chain[i]), now)
  }

  function Start(pin: Bytes, pinPK: Bytes): ChainResult {
    ChainResult(pin, pinPK, 0, false, [])
  }

  function Walk(x: Primitives, pin: Bytes, pinPK: Bytes, chain: seq<Statement>, now: Time): Walked {
    if |chain| > MAX_CHAIN_ENTRIES then Walked(Start(pin, pinPK), TooLong)
    else WalkFrom(x, chain, {}, Start(pin, pinPK), now)
  }

  lemma {:induction false} IndicesSize(n: nat)
    ensures |Indices(n)| == n
  {
    if n > 0 { IndicesSize(n - 1); }
  }

  lemma FullySpent(n: nat, used: set<nat>)
    requires used <= Indices(n) && |used| == n
    ensures used == Indices(n)
  {
    IndicesSize(n);
    assert |Indices(n) - used| == n - |used|;
  }

  /** The inner loop: the first unused, effective statement descending from the identity in
      force; one that claims to descend and does not verify breaks the walk. */
  method NextLink(x: Primitives, chain: seq<Statement>, used: set<nat>, out: ChainResult, now: Time)
    returns (next: nat, broken: bool)
    ensures next == FirstEligible(chain, 0, out.fingerprint, used, now)
    ensures broken <==> next < |chain| && !Verified(x, chain[next], out.publicKey)
  {
    next := 0;
    while next < |chain|
      invariant next <= |chain|
      invariant FirstEligible(chain, 0, out.fingerprint, used, now)
             == FirstEligible(chain, next, out.fingerprint, used, now)
    {
      var s := chain[next];
      if next in used || s.oldFP != out.fingerprint || s.notBefore > now
         || (!s.IsRevocation() && s.expiresAt != 0 && s.expiresAt <= now) {
        next := next + 1;
      } else {
        return next, !Verified(x, s, out.publicKey);
      }
    }
    return next, false;
  }

  /** One turn of the outer loop, with the verification already settled. */
  lemma Turn(x: Primitives, chain: seq<Statement>, used: set<nat>, out: ChainResult, now: Time)
    ensures var i := FirstEligible(chain, 0, out.fingerprint, used, now);
      WalkFrom(x, chain, used, out, now) ==
        if i == |chain| then Walked(out, NoError)
        else if !Verified(x, chain[i], out.publicKey) then Walked(out, Broken)
        else if chain[i].Terminal() then Walked(Apply(out, chain[i]), NoError)
        else WalkFrom(x, chain, used + {i}, Apply(out, chain[i]), now)
  {
  }

  /** WalkChain: at most one pass per entry, each applying the first eligible statement. */
  method WalkChain(x: Primitives, pin: Bytes, pinPK: Bytes, chain: seq<Statement>, now: Time)
    returns (out: ChainResult, err: WalkError)
    ensures Walked(out, err) == Walk(x, pin, pinPK, chain, now)
  {
    out, err := Start(pin, pinPK), NoError;
    if |chain| > MAX_CHAIN_ENTRIES {
      return out, TooLong;
    }
    var used: set<nat> := {};
    for step := 0 to |chain|
      invariant used <= Indices(|chain|) && |used| == step
      invariant err == NoError && !out.revoked && out.reason == []
      invariant WalkFrom(x, chain, used, out, now) == Walk(x, pin, pinPK, chain, now)
    {
      var next, broken := NextLink(x, chain, used, out, now);
      if broken {
        return out, Broken;
      }
      if next == |chain| {
        return out, NoError;
      }
      Turn(x, chain, used, out, now);
      ghost var before := out;
      used := used + {next};
      var s := chain[next];
      if s.IsRevocation() {
        out := out.(revoked := true, reason := s.reason);
        if !s.HasNew() {
          return out.(applied := out.applied + 1), NoError;
        }
        out := out.(fingerprint := s.newFP, publicKey := s.newPK, applied := out.applied + 1,
                    revoked := false, reason := []);
      } else {
        out := out.(fingerprint := s.newFP, publicKey := s.newPK, applied := out.applied + 1);
      }
      assert out == Apply(before, s);
    }
    FullySpent(|chain|, used);
  }
}
