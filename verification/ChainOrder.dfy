/** What a walk does not depend on: the order of the chain, and entries it never reaches. */
module ChainOrder {
  import opened Bytes
  import opened Options
  import opened Clock
  import opened Mailkey
  import opened Identity
  import opened ChainWalk
  import opened ChainSoundness

  predicate Candidate(s: Statement, fp: Bytes, now: Time) {
    s.oldFP == fp && InForce(s, now)
  }

  /** The entries in force that claim to descend from `fp`, in chain order. */
  function Candidates(chain: seq<Statement>, fp: Bytes, now: Time): seq<Statement> {
    if chain == [] then []
    else (if Candidate(chain[0], fp, now) then [chain[0]] else []) + Candidates(chain[1..], fp, now)
  }

  /** The same, from index `i` on and without the used entries. */
  function Remaining(chain: seq<Statement>, used: set<nat>, fp: Bytes, now: Time, i: nat): seq<Statement>
    requires i <= |chain|
    decreases |chain| - i
  {
    if i == |chain| then []
    else (if Eligible(chain, i, fp, used, now) then [chain[i]] else []) + Remaining(chain, used, fp, now, i + 1)
  }

  /** The fingerprints a walk stands on. */
  function Visited(x: Primitives, chain: seq<Statement>, used: set<nat>, out: ChainResult, now: Time): (s: set<Bytes>)
    ensures out.fingerprint in s
    decreases Indices(|chain|) - used
  {
    var i := FirstEligible(chain, 0, out.fingerprint, used, now);
    if i == |chain| || !Verified(x, chain[i], out.publicKey) || chain[i].Terminal() then {out.fingerprint}
    else
      assert i in Indices(|chain|) - used && i !in Indices(|chain|) - (used + {i});
      {out.fingerprint} + Visited(x, chain, used + {i}, Apply(out, chain[i]), now)
  }

  lemma {:induction false} RemainingHead(chain: seq<Statement>, used: set<nat>, fp: Bytes, now: Time, i: nat)
    requires i <= |chain|
    ensures var k := FirstEligible(chain, i, fp, used, now); var r := Remaining(chain, used, fp, now, i);
      if k == |chain| then r == [] else r != [] && r[0] == chain[k]
    decreases |chain| - i
  {
    if i < |chain| && !Eligible(chain, i, fp, used, now) {
      RemainingHead(chain, used, fp, now, i + 1);
    }
  }

  lemma {:induction false} RemainingUnused(chain: seq<Statement>, used: set<nat>, fp: Bytes, now: Time, i: nat, k: nat)
    requires i <= |chain| && (k < i || (k < |chain| && !Eligible(chain, k, fp, used, now)))
    ensures Remaining(chain, used + {k}, fp, now, i) == Remaining(chain, used, fp, now, i)
    decreases |chain| - i
  {
    if i < |chain| {
      RemainingUnused(chain, used, fp, now, i + 1, k);
    }
  }

  lemma {:induction false} RemainingTail(chain: seq<Statement>, used: set<nat>, fp: Bytes, now: Time, i: nat)
    requires i <= |chain| && FirstEligible(chain, i, fp, used, now) < |chain|
    ensures var k := FirstEligible(chain, i, fp, used, now); var r := Remaining(chain, used, fp, now, i);
      r != [] && Remaining(chain, used + {k}, fp, now, i) == r[1..]
    decreases |chain| - i
  {
    var k := FirstEligible(chain, i, fp, used, now);
    if k == i {
      RemainingUnused(chain, used, fp, now, i + 1, k);
    } else {
      RemainingTail(chain, used, fp, now, i + 1);
    }
  }

  predicate SameRemaining(c1: seq<Statement>, u1: set<nat>, c2: seq<Statement>, u2: set<nat>, fp: Bytes, now: Time) {
    Remaining(c1, u1, fp, now, 0) == Remaining(c2, u2, fp, now, 0)
  }

  lemma SameAfterStep(c1: seq<Statement>, u1: set<nat>, c2: seq<Statement>, u2: set<nat>, fp: Bytes, g: Bytes, now: Time)
    requires SameRemaining(c1, u1, c2, u2, fp, now) && SameRemaining(c1, u1, c2, u2, g, now)
    requires FirstEligible(c1, 0, fp, u1, now) < |c1| && FirstEligible(c2, 0, fp, u2, now) < |c2|
    ensures SameRemaining(c1, u1 + {FirstEligible(c1, 0, fp, u1, now)}, c2, u2 + {FirstEligible(c2, 0, fp, u2, now)}, g, now)
  {
    if g == fp {
      RemainingTail(c1, u1, fp, now, 0);
      RemainingTail(c2, u2, fp, now, 0);
    } else {
      RemainingUnused(c1, u1, g, now, 0, FirstEligible(c1, 0, fp, u1, now));
      RemainingUnused(c2, u2, g, now, 0, FirstEligible(c2, 0, fp, u2, now));
    }
  }

  /** Two chains that offer the same candidates, in the same order, for every fingerprint the
      first walk stands on give the same walk. */
  lemma {:induction false} SameWalkFrom(
    x: Primitives, c1: seq<Statement>, u1: set<nat>, c2: seq<Statement>, u2: set<nat>, out: ChainResult, now: Time)
    requires forall fp :: fp in Visited(x, c1, u1, out, now) ==> SameRemaining(c1, u1, c2, u2, fp, now)
    ensures WalkFrom(x, c1, u1, out, now) == WalkFrom(x, c2, u2, out, now)
    decreases Indices(|c1|) - u1
  {
    var fp := out.fingerprint;
    var i, j := FirstEligible(c1, 0, fp, u1, now), FirstEligible(c2, 0, fp, u2, now);
    RemainingHead(c1, u1, fp, now, 0);
    RemainingHead(c2, u2, fp, now, 0);
    assert SameRemaining(c1, u1, c2, u2, fp, now);
    Turn(x, c1, u1, out, now);
    Turn(x, c2, u2, out, now);
    if i < |c1| && Verified(x, c1[i], out.publicKey) && !c1[i].Terminal() {
      assert i in Indices(|c1|) - u1;
      var next := Apply(out, c1[i]);
      forall g | g in Visited(x, c1, u1 + {i}, next, now) ensures SameRemaining(c1, u1 + {i}, c2, u2 + {j}, g, now) {
        assert SameRemaining(c1, u1, c2, u2, g, now);
        SameAfterStep(c1, u1, c2, u2, fp, g, now);
      }
      SameWalkFrom(x, c1, u1 + {i}, c2, u2 + {j}, next, now);
    }
  }

  lemma {:induction false} RemainingIsCandidates(chain: seq<Statement>, fp: Bytes, now: Time, i: nat)
    requires i <= |chain|
    ensures Remaining(chain, {}, fp, now, i) == Candidates(chain[i..], fp, now)
    decreases |chain| - i
  {
    if i < |chain| {
      RemainingIsCandidates(chain, fp, now, i + 1);
      assert chain[i..][1..] == chain[i + 1..];
    }
  }

  // --- permutations ------------------------------------------------------------------

  lemma {:induction false} NoCandidates(chain: seq<Statement>, fp: Bytes, now: Time)
    requires forall i :: 0 <= i < |chain| ==> !Candidate(chain[i], fp, now)
    ensures Candidates(chain, fp, now) == []
  {
    if chain != [] {
      assert !Candidate(chain[0], fp, now);
      assert forall i :: 0 <= i < |chain[1..]| ==> chain[1..][i] == chain[i + 1];
      NoCandidates(chain[1..], fp, now);
    }
  }

  lemma {:induction false} CandidatesCount(chain: seq<Statement>, fp: Bytes, now: Time, s: Statement)
    ensures multiset(Candidates(chain, fp, now))[s] == if Candidate(s, fp, now) then multiset(chain)[s] else 0
  {
    if chain != [] {
      CandidatesCount(chain[1..], fp, now, s);
      assert chain == [chain[0]] + chain[1..];
    }
  }

  lemma JoinThree(a: seq<Statement>, b: seq<Statement>, c: seq<Statement>)
    ensures a + b + c == a + (b + c)
  {
  }

  lemma {:induction false} CandidatesAppend(a: seq<Statement>, b: seq<Statement>, fp: Bytes, now: Time)
    ensures Candidates(a + b, fp, now) == Candidates(a, fp, now) + Candidates(b, fp, now)
  {
    if a == [] {
      assert a + b == b;
    } else {
      var head := if Candidate(a[0], fp, now) then [a[0]] else [];
      CandidatesAppend(a[1..], b, fp, now);
      assert (a + b)[1..] == a[1..] + b && (a + b)[0] == a[0];
      JoinThree(head, Candidates(a[1..], fp, now), Candidates(b, fp, now));
    }
  }

  lemma ShortAndEqual(a: seq<Statement>, b: seq<Statement>)
    requires multiset(a) == multiset(b) && |a| <= 1
    ensures a == b
  {
    assert |multiset(a)| == |a| && |multiset(b)| == |b|;
    if |a| == 1 {
      assert a[0] in multiset(b);
    }
  }

  lemma SameCandidateBag(c: seq<Statement>, d: seq<Statement>, fp: Bytes, now: Time)
    requires multiset(c) == multiset(d)
    ensures multiset(Candidates(c, fp, now)) == multiset(Candidates(d, fp, now))
  {
    forall s ensures multiset(Candidates(c, fp, now))[s] == multiset(Candidates(d, fp, now))[s] {
      CandidatesCount(c, fp, now, s);
      CandidatesCount(d, fp, now, s);
    }
  }

  lemma SameCandidates(c1: seq<Statement>, extra: seq<Statement>, c2: seq<Statement>, fp: Bytes, now: Time)
    requires multiset(c2) == multiset(c1 + extra) && |Candidates(c1, fp, now)| <= 1
    requires forall i :: 0 <= i < |extra| ==> extra[i].oldFP != fp
    ensures Candidates(c1, fp, now) == Candidates(c2, fp, now)
  {
    NoCandidates(extra, fp, now);
    CandidatesAppend(c1, extra, fp, now);
    SameCandidateBag(c1 + extra, c2, fp, now);
    ShortAndEqual(Candidates(c1, fp, now), Candidates(c2, fp, now));
  }

  /** Order independence, with its hypothesis: when no fingerprint the walk stands on is left by
      two entries in force, any reordering of the chain, with any entries mixed in that descend from fingerprints the walk
      never stands on, gives the same result or the same failure. */
  lemma OrderAndStrangersIrrelevant(
    x: Primitives, pin: Bytes, pinPK: Bytes, c1: seq<Statement>, extra: seq<Statement>, c2: seq<Statement>, now: Time)
    requires multiset(c2) == multiset(c1 + extra)
    requires forall fp :: fp in Visited(x, c1, {}, Start(pin, pinPK), now) ==> |Candidates(c1, fp, now)| <= 1
    requires extra == [] || |c2| <= MAX_CHAIN_ENTRIES
    requires forall i :: 0 <= i < |extra| ==> extra[i].oldFP !in Visited(x, c1, {}, Start(pin, pinPK), now)
    ensures Walk(x, pin, pinPK, c1, now) == Walk(x, pin, pinPK, c2, now)
  {
    assert |multiset(c2)| == |c2| && |multiset(c1 + extra)| == |c1| + |extra|;
    var out := Start(pin, pinPK);
    forall fp | fp in Visited(x, c1, {}, out, now) ensures SameRemaining(c1, {}, c2, {}, fp, now) {
      SameCandidates(c1, extra, c2, fp, now);
      RemainingIsCandidates(c1, fp, now, 0);
      RemainingIsCandidates(c2, fp, now, 0);
      assert c1[0..] == c1 && c2[0..] == c2;
    }
    SameWalkFrom(x, c1, {}, c2, {}, out, now);
  }

  // --- the hypothesis is needed ----------------------------------------------------------

  /** Two entries in force that both leave the pin, and lead off it where they verify. */
  predicate Rivals(x: Primitives, s: Statement, t: Statement, pin: Bytes, pinPK: Bytes, now: Time) {
    && Candidate(s, pin, now) && Candidate(t, pin, now)
    && (Verified(x, s, pinPK) ==> s.newFP != pin) && (Verified(x, t, pinPK) ==> t.newFP != pin)
  }

  /** A walk of two rivals follows the first listed, if it verifies, and stops there. */
  lemma FirstRivalWins(x: Primitives, s: Statement, t: Statement, pin: Bytes, pinPK: Bytes, now: Time)
    requires Rivals(x, s, t, pin, pinPK, now)
    ensures var out := Start(pin, pinPK);
      Walk(x, pin, pinPK, [s, t], now) ==
        if Verified(x, s, pinPK) then Walked(Apply(out, s), NoError) else Walked(out, Broken)
  {
    var chain, out := [s, t], Start(pin, pinPK);
    Turn(x, chain, {}, out, now);
    Turn(x, chain, {0}, Apply(out, s), now);
  }

  /** Exactly when the order of two rivals does not matter: both verify and apply alike, or
      neither verifies. */
  lemma RivalsIff(x: Primitives, s: Statement, t: Statement, pin: Bytes, pinPK: Bytes, now: Time)
    requires Rivals(x, s, t, pin, pinPK, now)
    ensures Walk(x, pin, pinPK, [s, t], now) == Walk(x, pin, pinPK, [t, s], now) <==>
      && (Verified(x, s, pinPK) <==> Verified(x, t, pinPK))
      && (Verified(x, s, pinPK) ==> Apply(Start(pin, pinPK), s) == Apply(Start(pin, pinPK), t))
  {
    FirstRivalWins(x, s, t, pin, pinPK, now);
    FirstRivalWins(x, t, s, pin, pinPK, now);
  }

  /** Two authorized successors of one key: whichever is listed first wins. */
  lemma OrderMatters(x: Primitives, s: Statement, t: Statement, pin: Bytes, pinPK: Bytes, now: Time)
    requires Candidate(s, pin, now) && Verified(x, s, pinPK) && s.newFP != pin
    requires Candidate(t, pin, now) && Verified(x, t, pinPK) && t.newFP != pin
    requires s.newPK != t.newPK
    ensures Walk(x, pin, pinPK, [s, t], now) != Walk(x, pin, pinPK, [t, s], now)
  {
    RivalsIff(x, s, t, pin, pinPK, now);
  }

  lemma WalkStartsWith(x: Primitives, chain: seq<Statement>, pin: Bytes, pinPK: Bytes, now: Time)
    requires 0 < |chain| <= MAX_CHAIN_ENTRIES && Candidate(chain[0], pin, now)
    ensures var w := Walk(x, pin, pinPK, chain, now);
      if Verified(x, chain[0], pinPK) then w.result.applied > 0 else w == Walked(Start(pin, pinPK), Broken)
  {
    var out := Start(pin, pinPK);
    assert Eligible(chain, 0, pin, {}, now) && FirstEligible(chain, 0, pin, {}, now) == 0;
    Turn(x, chain, {}, out, now);
    if Verified(x, chain[0], pinPK) && !chain[0].Terminal() {
      WalkFromSound(x, chain, {} + {0}, Apply(out, chain[0]), now);
    }
  }

  /** An entry that claims to descend from the pin and does not verify breaks the walk at once when
      it is listed before one that does, whatever follows them; listed after it, the walk moves. */
  lemma BrokenRivalMatters(
    x: Primitives, s: Statement, t: Statement, rest: seq<Statement>, pin: Bytes, pinPK: Bytes, now: Time)
    requires Candidate(s, pin, now) && Candidate(t, pin, now) && 2 + |rest| <= MAX_CHAIN_ENTRIES
    requires Verified(x, s, pinPK) && !Verified(x, t, pinPK)
    ensures Walk(x, pin, pinPK, [t] + ([s] + rest), now) == Walked(Start(pin, pinPK), Broken)
    ensures Walk(x, pin, pinPK, [s] + ([t] + rest), now).result.applied > 0
    ensures Walk(x, pin, pinPK, [s] + ([t] + rest), now) != Walk(x, pin, pinPK, [t] + ([s] + rest), now)
  {
    WalkStartsWith(x, [s] + ([t] + rest), pin, pinPK, now);
    WalkStartsWith(x, [t] + ([s] + rest), pin, pinPK, now);
  }
}
