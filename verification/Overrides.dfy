/** Accepting an unpinned manifest (ResolveAcceptingUnpinned) against the ordinary call: from the
    same store, clock and answers, what differs and when. */
module Overrides {
  import opened Bytes
  import opened Options
  import opened Clock
  import opened Mailkey
  import opened PeerModel
  import opened MemStores
  import opened Verdicts
  import opened Resolution
  import opened Runs
  import opened Caches

  predicate Refused(o: Outcome) { o.Failed? && IsIdentityRefused(o.err) }

  /** `over` differs from `plain` just when `plain` is the overridable refusal, and then it hands
      out the response, which carries a proof. Neither call installs it. */
  predicate OnlyLifts(s: Slot, plain: Turn, over: Turn, r: Fetched) {
    && plain.slot == over.slot && plain.event == over.event
    && (plain.outcome != over.outcome <==> Refused(plain.outcome))
    && (Refused(plain.outcome) ==>
          && over.outcome == Served(r) && r.proof.Some?
          && !Installs(over.event) && CacheOf(over.slot) == CacheOf(s))
  }

  lemma CachedIsNoRefusal(x: Primitives, rec: Record, d: Bytes)
    ensures !Refused(ResultOf(x, rec, d))
    ensures ResultOf(x, rec, d).Served? ==> ResultOf(x, rec, d).res.proof.None?
  {
  }

  lemma RefuseLifts(x: Primitives, d: Bytes, s: Slot, env: Env, route: Bytes, prev: Option<Peer>, r: Fetched, v: Verdict)
    ensures var plain := Refuse(x, d, s, env, route, prev, r, v, false);
      OnlyLifts(s, plain, Refuse(x, d, s, env, route, prev, r, v, true), r)
  {
    var u := Usable(prev, env.clock(RefusalClock));
    if u.Some? { CachedIsNoRefusal(x, u.value, d); }
    RefuseCache(x, d, s, env, route, prev, r, v, false);
  }

  lemma ConcludeLifts(x: Primitives, d: Bytes, s: Slot, env: Env, route: Bytes, prev: Option<Peer>, r: Fetched, v: Verdict)
    ensures var plain := Conclude(x, d, s, env, route, prev, r, v, false);
      OnlyLifts(s, plain, Conclude(x, d, s, env, route, prev, r, v, true), r)
  {
    RefuseLifts(x, d, Folded(d, s, prev, r, v, env), env, route, prev, r, v);
    FoldedCache(d, s, prev, r, v, env);
  }

  /** One response: the override lifts the identity refusal and nothing else. */
  lemma SettleLifts(x: Primitives, d: Bytes, s: Slot, env: Env, route: Bytes, r: Fetched)
    ensures OnlyLifts(s, Settle(x, d, s, env, route, r, false), Settle(x, d, s, env, route, r, true), r)
  {
    ConcludeLifts(x, d, MarkSlot(s, r.fetchedAt), env, route, PrevOf(s, env), r, DecideFor(PrevOf(s, env), r, env.clock(DecisionClock)));
  }

  // --- when a response is refused so -----------------------------------------------------------

  /** The published history accounts for the response's signer, and both writes succeed. */
  predicate RotationSettles(x: Primitives, d: Bytes, s: Slot, env: Env, route: Bytes, r: Fetched) {
    && ProofValid(r) && RotationTarget(x, d, env, route, s.peer, r).Some?
    && RotationIdentityWrite !in env.faults && RotationInstallWrite !in env.faults
    && r.manifest.domain == d && (s.peer.Some? ==> s.peer.value.policy != Disabled)
  }

  /** The response shows an identity that is not the pin's, no history explains it, and nothing
      usable is cached when it is decided; the record is read, and the trust writes succeed. */
  predicate Stranger(x: Primitives, d: Bytes, s: Slot, env: Env, route: Bytes, r: Fetched) {
    && DecisionRead !in env.faults && LatchWrite !in env.faults && IdentityWrite !in env.faults
    && s.peer.Some? && s.peer.value.identity.status == Pinned
    && r.proof.Some? && !SignedBy(r, s.peer.value.identity.fingerprint)
    && Usable(s.peer, env.clock(DecisionClock)).None?
    && !RotationSettles(x, d, s, env, route, r)
  }

  lemma OverridableIff(st: IdentityState, r: Fetched, cachedUsable: bool)
    ensures var v := Decide(st, r, st.dnsFingerprint, st.hasDns, cachedUsable);
      && (!v.acceptFetched && Overridable(v.reason, r) <==>
            StatusOf(st) == Pinned && r.proof.Some? && !SignedBy(r, st.fingerprint))
      && (!v.acceptFetched ==> v.encrypt == cachedUsable)
      && (v.reason == PinnedOtherSigner <==> StatusOf(st) == Pinned && ProofValid(r) && !SignedBy(r, st.fingerprint))
  {
    AcceptedIff(st, r, st.dnsFingerprint, st.hasDns, cachedUsable);
  }

  lemma FollowedIff(x: Primitives, d: Bytes, s: Slot, env: Env, route: Bytes, prev: Option<Peer>, r: Fetched)
    requires s.peer.Some?
    ensures FollowRotation(x, d, s, env, route, prev, r).1 == RotationInstalled <==>
      && RotationTarget(x, d, env, route, prev, r).Some?
      && RotationIdentityWrite !in env.faults && RotationInstallWrite !in env.faults
      && r.manifest.domain == d && s.peer.value.policy != Disabled
  {
  }

  lemma RefuseRefusedIff(x: Primitives, d: Bytes, s: Slot, env: Env, route: Bytes, prev: Option<Peer>, r: Fetched, v: Verdict)
    ensures Refused(Refuse(x, d, s, env, route, prev, r, v, false).outcome) <==>
      && !v.encrypt && Overridable(v.reason, r)
      && !(v.reason == PinnedOtherSigner && FollowRotation(x, d, s, env, route, prev, r).1 == RotationInstalled)
  {
    var u := Usable(prev, env.clock(RefusalClock));
    if u.Some? { CachedIsNoRefusal(x, u.value, d); }
  }

  /** Only the identity of the record decides where the history leads. */
  lemma TargetBySnapshot(x: Primitives, d: Bytes, env: Env, route: Bytes, p: Option<Peer>, q: Option<Peer>, r: Fetched)
    requires p.Some? && q.Some? && p.value.identity == q.value.identity
    ensures RotationTarget(x, d, env, route, p, r) == RotationTarget(x, d, env, route, q, r)
  {
  }

  lemma ConcludeRefusedIff(x: Primitives, d: Bytes, s: Slot, env: Env, route: Bytes, prev: Option<Peer>, r: Fetched, v: Verdict)
    requires IdentityWrite !in env.faults
    ensures Refused(Conclude(x, d, s, env, route, prev, r, v, false).outcome) <==>
      && !v.acceptFetched && !v.encrypt && Overridable(v.reason, r)
      && !(v.reason == PinnedOtherSigner
           && FollowRotation(x, d, Folded(d, s, prev, r, v, env), env, route, prev, r).1 == RotationInstalled)
  {
    RefuseRefusedIff(x, d, Folded(d, s, prev, r, v, env), env, route, prev, r, v);
  }

  /** What is lifted was decided with no usable cache, and is never a replay. */
  lemma LiftedVerdict(x: Primitives, d: Bytes, s: Slot, env: Env, route: Bytes, r: Fetched)
    ensures var v := DecideFor(PrevOf(s, env), r, env.clock(DecisionClock));
      Refused(Settle(x, d, s, env, route, r, false).outcome) ==> !v.encrypt && !v.acceptFetched && !IsReplay(v.reason)
  {
    if IdentityWrite !in env.faults {
      var v := DecideFor(PrevOf(s, env), r, env.clock(DecisionClock));
      ConcludeRefusedIff(x, d, MarkSlot(s, r.fetchedAt), env, route, PrevOf(s, env), r, v);
    }
  }

  /** The folded slot still has the record the rotation is installed on. */
  lemma FoldedRecord(d: Bytes, s: Slot, prev: Option<Peer>, r: Fetched, v: Verdict, env: Env)
    ensures var t := Folded(d, s, prev, r, v, env);
      t.peer.Some? && (s.peer.Some? ==> t.peer.value.policy == s.peer.value.policy)
  {
  }

  /** A response is refused in the way an override can lift exactly when it is a stranger's. */
  lemma RefusedIffStranger(x: Primitives, d: Bytes, s: Slot, env: Env, route: Bytes, r: Fetched)
    ensures Refused(Settle(x, d, s, env, route, r, false).outcome) <==> Stranger(x, d, s, env, route, r)
  {
    var prev := PrevOf(s, env);
    var st := IdentityOf(prev);
    var v := DecideFor(prev, r, env.clock(DecisionClock));
    OverridableIff(st, r, Usable(prev, env.clock(DecisionClock)).Some?);
    if LatchWrite !in env.faults && IdentityWrite !in env.faults {
      var latched := MarkSlot(s, r.fetchedAt);
      ConcludeRefusedIff(x, d, latched, env, route, prev, r, v);
      FoldedRecord(d, latched, prev, r, v, env);
      FollowedIff(x, d, Folded(d, latched, prev, r, v, env), env, route, prev, r);
      if prev.Some? { TargetBySnapshot(x, d, env, route, prev, s.peer, r); }
    }
  }

  // --- resolve -----------------------------------------------------------------------------

  lemma ShortcutIsNoRefusal(x: Primitives, d: Bytes, s: Slot, env: Env)
    ensures var c := Shortcut(x, d, s, env); c.Some? ==> !Refused(c.value)
  {
    if s.peer.Some? && s.peer.value.effective.Some? {
      CachedIsNoRefusal(x, s.peer.value.effective.value, d);
    }
  }

  lemma ResolveLifts(x: Primitives, d: Bytes, s: Slot, env: Env, force: bool)
    ensures var plain := Resolve(x, d, s, env, force, false); var over := Resolve(x, d, s, env, force, true);
      if AnswerAt(s, env).Response? then OnlyLifts(s, plain, over, AnswerAt(s, env).res)
      else plain == over && !Refused(plain.outcome)
  {
    ShortcutIsNoRefusal(x, d, s, env);
    if AnswerAt(s, env).Response? {
      SettleLifts(x, d, s, env, AuthorityHint(s, env), AnswerAt(s, env).res);
    }
  }

  lemma ResolveRefusedIff(x: Primitives, d: Bytes, s: Slot, env: Env)
    ensures Refused(Resolve(x, d, s, env, false, false).outcome) <==>
      && Shortcut(x, d, s, env).None? && AnswerAt(s, env).Response?
      && Stranger(x, d, s, env, AuthorityHint(s, env), AnswerAt(s, env).res)
  {
    ShortcutIsNoRefusal(x, d, s, env);
    if AnswerAt(s, env).Response? { RefusedIffStranger(x, d, s, env, AuthorityHint(s, env), AnswerAt(s, env).res); }
  }

  // --- a delivery ----------------------------------------------------------------------------

  /** The delivery gets as far as resolving. */
  predicate Asks(s: Slot, env: Env) {
    && EntryRead !in env.faults
    && !(EntryPeer(s, env).Some? && EntryPeer(s, env).value.policy == Disabled)
    && (EntryCache(s, env).Some? ==> NeedsRefresh(EntryPeer(s, env), env.clock(EntryClock)))
  }

  /** The delivery gets an answer, and a stranger's: the refusal an override can lift. */
  predicate MeetsStranger(x: Primitives, d: Bytes, s: Slot, env: Env) {
    && Asks(s, env) && Shortcut(x, d, s, env).None? && AnswerAt(s, env).Response?
    && Stranger(x, d, s, env, AuthorityHint(s, env), AnswerAt(s, env).res)
  }

  lemma PolicyKeepsRefusal(s: Slot, env: Env, p: Option<Peer>, cause: Failure)
    ensures IsIdentityRefused(PolicyFailure(s, env, p, cause)) <==> IsIdentityRefused(cause)
  {
  }

  lemma UnwrappedLifts(x: Primitives, d: Bytes, s: Slot, env: Env)
    ensures var (p, plain) := ResolveUnwrapped(x, d, s, env, false); var (q, over) := ResolveUnwrapped(x, d, s, env, true);
      && p == q && plain.slot == over.slot
      && (plain.outcome != over.outcome <==> MeetsStranger(x, d, s, env))
      && (MeetsStranger(x, d, s, env) ==>
            && AnswerAt(s, env).Response? && over.outcome == Served(AnswerAt(s, env).res) && over.outcome.res.proof.Some?
            && CacheOf(over.slot) == CacheOf(s))
      && (Refused(plain.outcome) <==> MeetsStranger(x, d, s, env) && EntryCache(s, env).None?)
  {
    ResolveLifts(x, d, s, env, false);
    ResolveRefusedIff(x, d, s, env);
    if EntryCache(s, env).Some? {
      CachedIsNoRefusal(x, EntryCache(s, env).value, EntryPeer(s, env).value.domain);
    }
  }

  /** The two calls leave the same store. They answer differently exactly when the delivery meets a
      stranger, and then the override hands out the fetched, uninstalled manifest with its proof. */
  lemma OverrideLifts(x: Primitives, d: Bytes, s: Slot, env: Env)
    ensures var plain, over := ResolveEncrypting(x, d, s, env, false), ResolveEncrypting(x, d, s, env, true);
      && plain.slot == over.slot
      && (plain.outcome != over.outcome <==> MeetsStranger(x, d, s, env))
      && (plain.outcome != over.outcome ==>
            && AnswerAt(s, env).Response? && over.outcome == Served(AnswerAt(s, env).res) && over.outcome.res.proof.Some?
            && CacheOf(over.slot) == CacheOf(s))
  {
    UnwrappedLifts(x, d, s, env);
  }

  /** Exactly when the difference coincides with the ordinary call failing as refused: always,
      except when the cache was still usable on entry, for then that call falls back to it. */
  lemma OverrideMatchesRefusalIff(x: Primitives, d: Bytes, s: Slot, env: Env)
    ensures var plain, over := ResolveEncrypting(x, d, s, env, false).outcome, ResolveEncrypting(x, d, s, env, true).outcome;
      (plain != over <==> Refused(plain)) <==> !(MeetsStranger(x, d, s, env) && EntryCache(s, env).Some?)
  {
    UnwrappedLifts(x, d, s, env);
    var (p, plain) := ResolveUnwrapped(x, d, s, env, false);
    if plain.outcome.Failed? { PolicyKeepsRefusal(plain.slot, env, p, plain.outcome.err); }
  }

  /** The cached manifest expires between the call's first reading of the clock and its decision. */
  predicate ExpiresDuring(s: Slot, env: Env) {
    && s.peer.Some? && s.peer.value.effective.Some?
    && env.clock(EntryClock) < s.peer.value.effective.value.expiresAt <= env.clock(DecisionClock)
  }

  /** A stranger is met only with the cache expired at the decision. So the law of the two calls
      holds whenever the cache does not expire during the call. */
  lemma OverrideMatchesRefusal(x: Primitives, d: Bytes, s: Slot, env: Env)
    requires !ExpiresDuring(s, env)
    ensures var plain, over := ResolveEncrypting(x, d, s, env, false).outcome, ResolveEncrypting(x, d, s, env, true).outcome;
      plain != over <==> Refused(plain)
  {
    OverrideMatchesRefusalIff(x, d, s, env);
  }

  /** The exception is real: the cache runs out while the authority answers under a stranger's
      valid proof. The ordinary call still serves the cache, the override the stranger's manifest. */
  lemma OverridePrefersStranger(x: Primitives, d: Bytes, s: Slot, env: Env)
    requires env.faults == {} && ExpiresDuring(s, env)
    requires s.peer.value.policy == Auto && s.peer.value.identity.status == Pinned
    requires NeedsRefresh(EntryPeer(s, env), env.clock(EntryClock))
    requires NeedsRefresh(EntryPeer(s, env), env.clock(ShortcutClock))
    requires AnswerAt(s, env).Response? && ProofValid(AnswerAt(s, env).res)
    requires !SignedBy(AnswerAt(s, env).res, s.peer.value.identity.fingerprint)
    requires env.chain(AuthorityHint(s, env)).NoChain?
    ensures var plain, over := ResolveEncrypting(x, d, s, env, false).outcome, ResolveEncrypting(x, d, s, env, true).outcome;
      plain != over && !Refused(plain) && over == Served(AnswerAt(s, env).res)
  {
    OverrideLifts(x, d, s, env);
    OverrideMatchesRefusalIff(x, d, s, env);
  }
}
