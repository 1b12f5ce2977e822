/** The service's methods, writing the store step by step (peer/service.go). Every method leaves
    the one domain's slot as the function of Resolution says, and all other domains alone. */
module Services {
  import opened Bytes
  import opened Options
  import opened Clock
  import opened Mailkey
  import opened ChainWalk
  import opened ChainCodec
  import opened PeerModel
  import opened MemStores
  import opened Verdicts
  import opened Resolution

  class Service {
    const x: Primitives
    const store: MemStore

    constructor (x: Primitives, store: MemStore)
      ensures this.x == x && this.store == store
    {
      this.x, this.store := x, store;
    }

    method ReadPeerAt(d: Bytes, env: Env, site: Site) returns (r: Result<Option<Peer>>)
      requires store.Valid()
      ensures r == ReadPeer(store.SlotOf(d), env, site)
    {
      if site in env.faults {
        return Err;
      }
      var p := store.GetPeer(d, env.clock(site));
      return Ok(p);
    }

    /** authorityHint, with its scan for the newest observation. */
    method RouteFor(d: Bytes, env: Env) returns (hint: Bytes)
      requires store.Valid()
      ensures hint == AuthorityHint(store.SlotOf(d), env)
    {
      var read := ReadPeerAt(d, env, HintRead);
      if read.Err? || read.value.None? || read.value.value.identity.status != Pinned {
        return [];
      }
      var os := read.value.value.observations;
      var newest: Time := 0;
      hint := [];
      for i := 0 to |os|
        invariant Freshest(os, 0, []) == Freshest(os[i..], newest, hint)
      {
        assert os[i..][0] == os[i] && os[i..][1..] == os[i + 1..];
        if os[i].observedAt > newest {
          newest, hint := os[i].observedAt, os[i].authority;
        }
      }
    }

    /** The walk half of followRotation: it reads, and writes nothing. */
    method WalkHistory(d: Bytes, env: Env, route: Bytes, prev: Option<Peer>, r: Fetched) returns (to: Option<ChainResult>)
      ensures to == RotationTarget(x, d, env, route, prev, r)
    {
      var served := env.chain(route);
      if served.NoChain? || prev.None? || prev.value.identity.publicKey == [] || r.proof.None? {
        return None;
      }
      var doc := ParsedDoc(x, d, served.raw);
      if doc.Err? {
        return None;
      }
      var st := prev.value.identity;
      var walk, werr := WalkChain(x, st.fingerprint, st.publicKey, doc.value.chain, env.clock(WalkClock));
      if werr != NoError || walk.revoked || walk.applied == 0 || walk.fingerprint != r.proof.value.fingerprint {
        return None;
      }
      return Some(walk);
    }

    /** Its writing half: the pin first, then the manifest. */
    method MovePin(d: Bytes, env: Env, r: Fetched, st: IdentityState) returns (event: Event)
      requires store.Valid()
      modifies store`peers, store.Objects()
      ensures var moved := SetIdentitySlot(old(store.SlotOf(d)), d, st);
        var (after, e) := InstallSlot(moved, d, r, env.clock(RotationInstallWrite));
        if RotationInstallWrite in env.faults then store.Became(d, moved) && event == RotationOnly
        else store.Became(d, after) && event == if e == Stored then RotationInstalled else RotationOnly
    {
      store.SetIdentity(d, st);
      if RotationInstallWrite in env.faults {
        return RotationOnly;
      }
      var e := store.InstallManifest(d, r, env.clock(RotationInstallWrite));
      return if e == Stored then RotationInstalled else RotationOnly;
    }

    method FollowRotation(d: Bytes, env: Env, route: Bytes, prev: Option<Peer>, r: Fetched) returns (event: Event)
      requires store.Valid()
      modifies store`peers, store.Objects()
      ensures var after := Resolution.FollowRotation(x, d, old(store.SlotOf(d)), env, route, prev, r);
        store.Became(d, after.0) && event == after.1
    {
      var to := WalkHistory(d, env, route, prev, r);
      if to.None? || RotationIdentityWrite in env.faults {
        return Nothing;
      }
      event := MovePin(d, env, r, RotatedIdentity(IdentityOf(prev), to.value, r, env.clock(PinClock)));
    }

    /** The refusing half of resolve: a signed history may settle it, otherwise it is recorded
        and the caller gets the trusted cache, an override, or a hold. */
    method Refuse(d: Bytes, env: Env, route: Bytes, prev: Option<Peer>, r: Fetched, v: Verdict, accept: bool)
      returns (outcome: Outcome, ghost event: Event)
      requires store.Valid()
      modifies store`peers, store.Objects()
      ensures var t := Resolution.Refuse(x, d, old(store.SlotOf(d)), env, route, prev, r, v, accept);
        store.Became(d, t.slot) && outcome == t.outcome && event == t.event
    {
      event := Nothing;
      if v.reason == PinnedOtherSigner {
        var followed := FollowRotation(d, env, route, prev, r);
        event := followed;
        if followed == RotationInstalled {
          return Served(r), event;
        }
      }
      if RefusalWrite !in env.faults {
        store.RecordFailure(d, env.clock(RefusalWrite));
      }
      if v.encrypt {
        var rec := Usable(prev, env.clock(RefusalClock));
        outcome := if rec.Some? then ResultOf(x, rec.value, d) else Failed(Required(Plain));
        return;
      }
      if accept && Overridable(v.reason, r) {
        return Served(r), event;
      }
      outcome := Failed(Required(if Overridable(v.reason, r) then IdentityRefused else Plain));
    }

    method Install(d: Bytes, env: Env, r: Fetched) returns (outcome: Outcome, ghost event: Event)
      requires store.Valid()
      modifies store`peers, store.Objects()
      ensures var t := Resolution.Install(d, old(store.SlotOf(d)), env, r);
        store.Became(d, t.slot) && outcome == t.outcome && event == t.event
    {
      event := Nothing;
      if InstallWrite in env.faults {
        return Failed(Plain), event;
      }
      var e := store.InstallManifest(d, r, env.clock(InstallWrite));
      match e {
        case Stored => return Served(r), Installation;
        case OtherDomain => return Failed(Plain), event;
        case AdministrativelyDisabled => return Failed(DisabledError), event;
      }
    }

    /** Identity before manifest: nothing is installed unless the trust state is durable. */
    method Conclude(d: Bytes, env: Env, route: Bytes, prev: Option<Peer>, r: Fetched, v: Verdict, accept: bool)
      returns (outcome: Outcome, ghost event: Event)
      requires store.Valid()
      modifies store`peers, store.Objects()
      ensures var t := Resolution.Conclude(x, d, old(store.SlotOf(d)), env, route, prev, r, v, accept);
        store.Became(d, t.slot) && outcome == t.outcome && event == t.event
    {
      if IdentityWrite in env.faults {
        return Failed(Required(Plain)), Nothing;
      }
      store.SetIdentity(d, ApplyIdentity(IdentityOf(prev), v, r, env.clock(IdentityClock)));
      if v.acceptFetched {
        outcome, event := Install(d, env, r);
      } else {
        outcome, event := Refuse(d, env, route, prev, r, v, accept);
      }
    }

    /** The part of resolve that holds a response: the decision comes before anything is
        written, and the latch before the identity. */
    method Settle(d: Bytes, env: Env, route: Bytes, r: Fetched, accept: bool)
      returns (outcome: Outcome, ghost event: Event)
      requires store.Valid()
      modifies store, store.Objects()
      ensures var t := Resolution.Settle(x, d, old(store.SlotOf(d)), env, route, r, accept);
        store.Became(d, t.slot) && outcome == t.outcome && event == t.event
    {
      var read := ReadPeerAt(d, env, DecisionRead);
      var prev := read.GetOr(None);
      var v := DecideFor(prev, r, env.clock(DecisionClock));
      if LatchWrite in env.faults {
        return Failed(Required(Plain)), Nothing;
      }
      store.MarkValidated(d, r.fetchedAt);
      outcome, event := Conclude(d, env, route, prev, r, v, accept);
    }

    /** The cached answer an unforced resolution may give. */
    method CachedAnswer(d: Bytes, env: Env) returns (cached: Option<Outcome>)
      requires store.Valid()
      ensures cached == Shortcut(x, d, store.SlotOf(d), env)
    {
      var read := ReadPeerAt(d, env, ShortcutRead);
      if read.Err? || read.value.None? {
        return None;
      }
      var p := read.value;
      if p.value.policy == Disabled {
        return Some(Failed(DisabledError));
      }
      if NeedsRefresh(p, env.clock(ShortcutClock)) {
        return None;
      }
      var rec := Usable(p, env.clock(ShortcutClockAgain));
      return if rec.Some? then Some(ResultOf(x, rec.value, d)) else None;
    }

    /** The network half of resolve. */
    method Fetch(d: Bytes, env: Env, accept: bool) returns (outcome: Outcome, ghost event: Event)
      requires store.Valid()
      modifies store, store.Objects()
      ensures var t := Resolution.Fetch(x, d, old(store.SlotOf(d)), env, accept);
        store.Became(d, t.slot) && outcome == t.outcome && event == t.event
    {
      event := Nothing;
      var route := RouteFor(d, env);
      var answer := env.answer(route);
      if answer.Response? {
        outcome, event := Settle(d, env, route, answer.res, accept);
        return;
      }
      if FailureWrite in env.faults {
        return Failed(Plain), event;
      }
      store.RecordFailure(d, env.clock(FailureWrite));
      outcome := Failed(Foreign(answer.saysDisabled));
    }

    /** resolve. */
    method Resolve(d: Bytes, env: Env, force: bool, accept: bool) returns (outcome: Outcome, ghost event: Event)
      requires store.Valid()
      modifies store, store.Objects()
      ensures var t := Resolution.Resolve(x, d, old(store.SlotOf(d)), env, force, accept);
        store.Became(d, t.slot) && outcome == t.outcome && event == t.event
    {
      if !force {
        var cached := CachedAnswer(d, env);
        if cached.Some? {
          return cached.value, Nothing;
        }
      }
      outcome, event := Fetch(d, env, accept);
    }

    method PolicyFailure(d: Bytes, env: Env, p: Option<Peer>, cause: Failure) returns (e: Failure)
      requires store.Valid()
      ensures e == Resolution.PolicyFailure(store.SlotOf(d), env, p, cause)
    {
      if IsDisabled(cause) {
        return cause;
      }
      if p.Some? && p.value.policy == Require {
        return Required(cause);
      }
      if PolicyRead in env.faults {
        return Required(cause);
      }
      var cap := store.CapabilityOf(d);
      return if cap.Requires() then Required(cause) else cause;
    }

    /** resolveForEncryption: the cache when it is fresh, the authority when it is not, and the
        cache again when the authority fails. */
    method ResolveUnwrapped(d: Bytes, env: Env, accept: bool)
      returns (p: Option<Peer>, outcome: Outcome, ghost event: Event)
      requires store.Valid()
      modifies store, store.Objects()
      ensures var after := Resolution.ResolveUnwrapped(x, d, old(store.SlotOf(d)), env, accept);
        && p == after.0 && store.Became(d, after.1.slot)
        && outcome == after.1.outcome && event == after.1.event
    {
      event := Nothing;
      var read := ReadPeerAt(d, env, EntryRead);
      if read.Err? {
        return None, Failed(Plain), event;
      }
      p := read.value;
      if p.Some? && p.value.policy == Disabled {
        return p, Failed(DisabledError), event;
      }
      var rec := Usable(p, env.clock(EntryClock));
      if rec.Some? && !NeedsRefresh(p, env.clock(EntryClock)) {
        return p, ResultOf(x, rec.value, p.value.domain), event;
      }
      outcome, event := Resolve(d, env, false, accept);
      if rec.Some? && outcome.Failed? {
        outcome := ResultOf(x, rec.value, p.value.domain);
      }
    }

    /** The only way out of resolveForEncryption: every error passes the policy. */
    method ResolveEncrypting(d: Bytes, env: Env, accept: bool) returns (outcome: Outcome, ghost event: Event)
      requires store.Valid()
      modifies store, store.Objects()
      ensures var t := Resolution.ResolveEncrypting(x, d, old(store.SlotOf(d)), env, accept);
        store.Became(d, t.slot) && outcome == t.outcome && event == t.event
    {
      var p: Option<Peer>;
      p, outcome, event := ResolveUnwrapped(d, env, accept);
      if outcome.Failed? {
        var e := PolicyFailure(d, env, p, outcome.err);
        outcome := Failed(e);
      }
    }

    /** Refresh asks the authority whatever the cache says, disabled or not. */
    method Refresh(d: Bytes, env: Env) returns (outcome: Outcome)
      requires store.Valid()
      modifies store, store.Objects()
      ensures var t := Resolution.Resolve(x, d, old(store.SlotOf(d)), env, true, false);
        store.Became(d, t.slot) && outcome == t.outcome
    {
      ghost var event;
      outcome, event := Resolve(d, env, true, false);
    }

    method Forget(d: Bytes)
      requires store.Valid()
      modifies store`peers, store.Objects()
      ensures store.Became(d, ForgetSlot(old(store.SlotOf(d))))
    {
      store.ForgetPeer(d);
    }
  }
}
