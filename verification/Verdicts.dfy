/** What a sender does with a fetched manifest, given what it trusts (peer/identity.go). */
module Verdicts {
  import opened Bytes
  import opened Options
  import opened Clock
  import opened Mailkey
  import opened PeerModel

  /** The row of the decision table that produced a verdict. */
  datatype Reason =
    | PinnedValid | PinnedDnsDisagrees | PinnedOtherSigner | PinnedNoProof
    | UnpinnedInvalidProof | UnpinnedDnsButNoProof | UnpinnedNoProof | UnpinnedDnsDisagrees
    | PinEstablished | PinCorroborated
    | ReplayExpired | ReplayRollback | ReplayAmbiguous

  predicate IsReplay(r: Reason) { r.ReplayExpired? || r.ReplayRollback? || r.ReplayAmbiguous? }

  /** `encrypt`: mail may still be sealed, with this fetch or with the accepted cache.
      `acceptFetched`: this fetch may be installed. */
  datatype Verdict = Verdict(
    encrypt: bool, acceptFetched: bool, pin: Bytes, hasPin: bool, status: IdentityStatus,
    alert: bool, contest: bool, rollback: bool, reason: Reason)

  function StatusOf(st: IdentityState): IdentityStatus {
    if st.status == Blank then Unpinned else st.status
  }

  predicate ProofValid(r: Fetched) { r.proof.Some? && r.proofError == [] }

  function Refusal(encrypt: bool, st: IdentityState, keepPin: bool, rollback: bool, reason: Reason): Verdict {
    Verdict(encrypt, false, if keepPin then st.fingerprint else [], keepPin && StatusOf(st) == Pinned, StatusOf(st),
            true, false, rollback, reason)
  }

  function Acceptance(st: IdentityState, alert: bool, reason: Reason): Verdict {
    Verdict(true, true, [], false, StatusOf(st), alert, false, false, reason)
  }

  /** checkReplay: an expired response, then the two orderings against what was verified. */
  function CheckReplay(st: IdentityState, r: Fetched, cachedUsable: bool): Option<Verdict> {
    if r.expiresAt != 0 && r.expiresAt <= r.fetchedAt then Some(Refusal(cachedUsable, st, false, false, ReplayExpired))
    else if st.issuedAt == 0 then None
    else if r.manifest.issuedAt < st.issuedAt then Some(Refusal(cachedUsable, st, true, true, ReplayRollback))
    else if r.manifest.issuedAt == st.issuedAt && r.id != st.manifestId then
      Some(Refusal(cachedUsable, st, true, false, ReplayAmbiguous))
    else None
  }

  /** afterIdentityAuthorization: ordering is looked at only once the signer is authorized. */
  function AfterAuthorization(st: IdentityState, r: Fetched, cachedUsable: bool, v: Verdict): Verdict {
    if !v.acceptFetched then v
    else match CheckReplay(st, r, cachedUsable)
      case Some(replay) => replay
      case None => v
  }

  function Decide(st: IdentityState, r: Fetched, dns: Bytes, hasDns: bool, cachedUsable: bool): Verdict {
    if StatusOf(st) == Pinned then
      if ProofValid(r) && r.proof.value.fingerprint == st.fingerprint then
        var disagrees := hasDns && dns != st.fingerprint;
        AfterAuthorization(st, r, cachedUsable,
          Verdict(true, true, st.fingerprint, true, Pinned, disagrees, false, false,
                  if disagrees then PinnedDnsDisagrees else PinnedValid))
      else if ProofValid(r) then
        Verdict(cachedUsable, false, st.fingerprint, true, Pinned, true, false, false, PinnedOtherSigner)
      else
        Verdict(cachedUsable, false, st.fingerprint, true, Pinned, true, false, false, PinnedNoProof)
    else if r.proofError != [] then
      AfterAuthorization(st, r, cachedUsable, Acceptance(st, true, UnpinnedInvalidProof))
    else if !ProofValid(r) && hasDns then
      AfterAuthorization(st, r, cachedUsable, Acceptance(st, true, UnpinnedDnsButNoProof))
    else if !ProofValid(r) then
      AfterAuthorization(st, r, cachedUsable, Acceptance(st, false, UnpinnedNoProof))
    else if hasDns && dns != r.proof.value.fingerprint then
      AfterAuthorization(st, r, cachedUsable,
        Verdict(true, true, [], false, Contested, true, true, false, UnpinnedDnsDisagrees))
    else
      AfterAuthorization(st, r, cachedUsable,
        Verdict(true, true, r.proof.value.fingerprint, true, Pinned, false, false, false,
                if hasDns then PinCorroborated else PinEstablished))
  }

  /** ApplyIdentity: fold a verdict into the stored trust. */
  function ApplyIdentity(st: IdentityState, v: Verdict, r: Fetched, now: Time): IdentityState {
    var seen := st.(everValidated := true, status := StatusOf(st));
    var pinned :=
      if v.hasPin && seen.status != Pinned then
        seen.(status := Pinned, fingerprint := v.pin, pinnedAt := now, contested := false,
              publicKey := if r.proof.Some? && r.proof.value.fingerprint == v.pin then r.proof.value.publicKey
                           else seen.publicKey)
      else if v.status == Contested && seen.status != Pinned then
        seen.(status := Contested, contested := v.contest)
      else seen;
    if v.acceptFetched && r.manifest.issuedAt != 0 && r.manifest.issuedAt > pinned.issuedAt then
      pinned.(issuedAt := r.manifest.issuedAt, manifestId := r.id)
    else pinned
  }

  // --- the table, read as properties -----------------------------------------------------

  predicate SignedBy(r: Fetched, fp: Bytes) {
    ProofValid(r) && r.proof.value.fingerprint == fp
  }

  /** Replay ordering admits the response: newer than the watermark, or the very same manifest. */
  predicate InOrder(st: IdentityState, r: Fetched) {
    st.issuedAt == 0 || r.manifest.issuedAt > st.issuedAt
    || (r.manifest.issuedAt == st.issuedAt && r.id == st.manifestId)
  }

  predicate Lapsed(r: Fetched) { r.expiresAt != 0 && r.expiresAt <= r.fetchedAt }

  /** When a response may be installed: signed by the pin if there is one, unexpired, in order. */
  lemma AcceptedIff(st: IdentityState, r: Fetched, dns: Bytes, hasDns: bool, cachedUsable: bool)
    ensures Decide(st, r, dns, hasDns, cachedUsable).acceptFetched <==>
      (StatusOf(st) == Pinned ==> SignedBy(r, st.fingerprint)) && !Lapsed(r) && InOrder(st, r)
    ensures !Decide(st, r, dns, hasDns, cachedUsable).acceptFetched ==>
      Decide(st, r, dns, hasDns, cachedUsable).encrypt == cachedUsable
  {
  }

  /** DNS can withhold a pin; it never decides whether mail is sealed or what is installed. */
  lemma DnsOnlyCorroborates(st: IdentityState, r: Fetched, a: Bytes, hasA: bool, b: Bytes, hasB: bool, cachedUsable: bool)
    ensures var v, w := Decide(st, r, a, hasA, cachedUsable), Decide(st, r, b, hasB, cachedUsable);
      && v.encrypt == w.encrypt && v.acceptFetched == w.acceptFetched
      && (StatusOf(st) == Pinned ==> v.pin == w.pin && v.hasPin == w.hasPin && v.status == w.status)
  {
  }

  /** Folding a verdict never moves an established pin. */
  lemma PinStands(st: IdentityState, v: Verdict, r: Fetched, now: Time)
    requires StatusOf(st) == Pinned
    ensures var t := ApplyIdentity(st, v, r, now);
      t.status == Pinned && t.fingerprint == st.fingerprint && t.publicKey == st.publicKey && t.pinnedAt == st.pinnedAt
  {
  }

  /** How a pin is born: from the valid proof of an accepted response DNS does not contradict,
      with the key that goes with it. */
  lemma PinBornIff(st: IdentityState, r: Fetched, dns: Bytes, hasDns: bool, cachedUsable: bool, now: Time)
    requires StatusOf(st) != Pinned
    ensures var v := Decide(st, r, dns, hasDns, cachedUsable); var t := ApplyIdentity(st, v, r, now);
      && (t.status == Pinned <==>
            ProofValid(r) && !(hasDns && dns != r.proof.value.fingerprint) && !Lapsed(r) && InOrder(st, r))
      && (t.status == Pinned ==> t.fingerprint == r.proof.value.fingerprint && t.publicKey == r.proof.value.publicKey)
  {
  }

  /** The watermark is exactly the last accepted manifest, and a refusal leaves it alone. */
  lemma WatermarkFollowsAcceptance(st: IdentityState, r: Fetched, dns: Bytes, hasDns: bool, cachedUsable: bool, now: Time)
    requires r.manifest.issuedAt > 0 && st.issuedAt >= 0
    ensures var v := Decide(st, r, dns, hasDns, cachedUsable); var t := ApplyIdentity(st, v, r, now);
      && (v.acceptFetched ==> t.issuedAt == r.manifest.issuedAt && t.manifestId == r.id)
      && (!v.acceptFetched ==> t.issuedAt == st.issuedAt && t.manifestId == st.manifestId)
  {
    AcceptedIff(st, r, dns, hasDns, cachedUsable);
  }
}
