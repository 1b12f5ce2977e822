/** The cache refines the fetch: what a slot serves later is what the authority last installed. */
module Caches {
  import opened Bytes
  import opened Options
  import opened Clock
  import opened Mailkey
  import opened Manifests
  import opened ManifestProofs
  import opened Envelopes
  import opened Authority
  import opened Proofs
  import opened Text
  import opened PeerModel
  import opened MemStores
  import opened Verdicts
  import opened Resolution
  import opened Runs
  import opened Pins
  import opened Epochs

  /** What installing changes: the effective manifest, those before it, and the unstable mark. */
  datatype Cache = Cache(effective: Option<Record>, history: seq<Record>, unstable: bool)

  const NO_CACHE := Cache(None, [], false)

  function CacheOf(s: Slot): Cache {
    if s.peer.None? then NO_CACHE else Cache(s.peer.value.effective, s.peer.value.history, s.peer.value.unstable)
  }

  function Replaced(c: Cache, r: Fetched): Cache {
    if c.effective.Some? && c.effective.value.id != r.id then
      var prev := c.effective.value;
      Cache(Some(RecordOf(r)), Recent([prev.(status := Historical)] + c.history),
            c.unstable || (prev.fetchedAt != 0 && r.fetchedAt - prev.fetchedAt < INSTABILITY_WINDOW && RotatedBack(c.history, r.id)))
    else Cache(Some(RecordOf(r)), c.history, c.unstable)
  }

  predicate Installs(e: Event) { e == Installation || e == RotationInstalled }

  // --- one response ------------------------------------------------------------------------

  lemma InstallSlotCache(s: Slot, d: Bytes, r: Fetched, now: Time)
    ensures var (t, e) := InstallSlot(s, d, r, now);
      CacheOf(t) == if e == Stored then Replaced(CacheOf(s), r) else CacheOf(s)
  {
  }

  lemma FollowCache(x: Primitives, d: Bytes, s: Slot, env: Env, route: Bytes, prev: Option<Peer>, r: Fetched)
    ensures var (t, event) := FollowRotation(x, d, s, env, route, prev, r);
      && event != Installation
      && CacheOf(t) == if Installs(event) then Replaced(CacheOf(s), r) else CacheOf(s)
  {
    var target := RotationTarget(x, d, env, route, prev, r);
    if target.Some? {
      var moved := SetIdentitySlot(s, d, RotatedIdentity(IdentityOf(prev), target.value, r, env.clock(PinClock)));
      InstallSlotCache(moved, d, r, env.clock(RotationInstallWrite));
    }
  }

  lemma FailureCache(s: Slot, d: Bytes, now: Time)
    ensures CacheOf(RecordFailureSlot(s, d, now)) == CacheOf(s)
  {
  }

  lemma RefuseCache(
    x: Primitives, d: Bytes, s: Slot, env: Env, route: Bytes, prev: Option<Peer>, r: Fetched, v: Verdict, accept: bool)
    ensures var t := Refuse(x, d, s, env, route, prev, r, v, accept);
      && t.event != Installation
      && CacheOf(t.slot) == if Installs(t.event) then Replaced(CacheOf(s), r) else CacheOf(s)
  {
    FollowCache(x, d, s, env, route, prev, r);
    FailureCache(FollowRotation(x, d, s, env, route, prev, r).0, d, env.clock(RefusalWrite));
    FailureCache(s, d, env.clock(RefusalWrite));
  }

  lemma FoldedCache(d: Bytes, s: Slot, prev: Option<Peer>, r: Fetched, v: Verdict, env: Env)
    ensures CacheOf(Folded(d, s, prev, r, v, env)) == CacheOf(s)
  {
  }

  /** Whatever store calls fail, a response changes the cache exactly by being installed. */
  lemma SettleCache(x: Primitives, d: Bytes, s: Slot, env: Env, route: Bytes, r: Fetched, accept: bool)
    ensures var t := Settle(x, d, s, env, route, r, accept);
      CacheOf(t.slot) == if Installs(t.event) then Replaced(CacheOf(s), r) else CacheOf(s)
  {
    var prev := ReadPeer(s, env, DecisionRead).GetOr(None);
    var v := DecideFor(prev, r, env.clock(DecisionClock));
    if LatchWrite !in env.faults && IdentityWrite !in env.faults {
      var latched := MarkSlot(s, r.fetchedAt);
      var trusted := Folded(d, latched, prev, r, v, env);
      FoldedCache(d, latched, prev, r, v, env);
      if v.acceptFetched {
        InstallSlotCache(trusted, d, r, env.clock(InstallWrite));
      } else {
        RefuseCache(x, d, trusted, env, route, prev, r, v, accept);
      }
    }
  }

  lemma LapsedIsNotInstalled(x: Primitives, d: Bytes, s: Slot, env: Env, route: Bytes, r: Fetched, accept: bool)
    requires Lapsed(r)
    ensures Settle(x, d, s, env, route, r, accept).event != Installation
  {
    var prev := ReadPeer(s, env, DecisionRead).GetOr(None);
    var v := DecideFor(prev, r, env.clock(DecisionClock));
    AcceptedIff(IdentityOf(prev), r, IdentityOf(prev).dnsFingerprint, IdentityOf(prev).hasDns, Usable(prev, env.clock(DecisionClock)).Some?);
    RefuseCache(x, d, Folded(d, MarkSlot(s, r.fetchedAt), prev, r, v, env), env, route, prev, r, v, accept);
  }

  /** A response served with a max-age of nothing counts as expired on arrival: it latches the
      domain and is not installed, unless a followed rotation, which asks only for the signer,
      installs it. */
  lemma MaxAgeZeroIsNotInstalled(
    x: Primitives, d: Bytes, s: Slot, env: Env, route: Bytes, accept: bool,
    host: Bytes, body: Bytes, fields: HeaderFields, cacheControl: Bytes, now: Time, limits: Limits, i: nat)
    requires now > 0 && cacheControl != [] && Received(x, d, host, body, fields, cacheControl, now, limits).Ok?
    requires i < |Split(cacheControl, ',')| && MaxAge(Split(cacheControl, ',')[i]) == Some(0)
    requires var until := Received(x, d, host, body, fields, cacheControl, now, limits).value.manifest.expiresAt;
      forall j :: 0 <= j < i ==> !Shortens(Split(cacheControl, ',')[j], until, now)
    ensures var r := Received(x, d, host, body, fields, cacheControl, now, limits).value;
      && Lapsed(r) && Settle(x, d, s, env, route, r, accept).event != Installation
  {
    var r := Received(x, d, host, body, fields, cacheControl, now, limits).value;
    MaxAgeZero(Split(cacheControl, ','), i, r.manifest.expiresAt, now);
    LapsedIsNotInstalled(x, d, s, env, route, r, accept);
  }

  lemma FetchCache(x: Primitives, d: Bytes, s: Slot, env: Env, accept: bool)
    ensures var t := Fetch(x, d, s, env, accept);
      && (Installs(t.event) ==> AnswerAt(s, env).Response?)
      && CacheOf(t.slot) == if Installs(t.event) then Replaced(CacheOf(s), AnswerAt(s, env).res) else CacheOf(s)
  {
    var route := AuthorityHint(s, env);
    match env.answer(route)
    case Response(r) => SettleCache(x, d, s, env, route, r, accept);
    case Unreachable(_) => FailureCache(s, d, env.clock(FailureWrite));
  }

  // --- over runs ---------------------------------------------------------------------------

  /** What a step asks of the authority, if it asks. */
  function AnswerOf(s: Slot, step: Step): Option<Answer> {
    match step
    case Deliver(env, _) => Some(AnswerAt(s, env))
    case Background(env, _) => Some(AnswerAt(s, env))
    case _ => None
  }

  lemma StepCache(x: Primitives, d: Bytes, s: Slot, step: Step)
    requires !step.Forgetting?
    ensures var event := EventOf(x, d, s, step); var answer := AnswerOf(s, step);
      && (Installs(event) ==> answer.Some? && answer.value.Response?)
      && CacheOf(Next(x, d, s, step)) == if Installs(event) then Replaced(CacheOf(s), answer.value.res) else CacheOf(s)
  {
    match step
    case Deliver(env, accept) =>
      FetchCache(x, d, s, env, accept);
      DeliveryIsResolution(x, d, s, env, accept);
      ResolutionIsFetch(x, d, s, env, false, accept);
    case Background(env, force) =>
      FetchCache(x, d, s, env, false);
      ResolutionIsFetch(x, d, s, env, force, false);
    case _ =>
  }

  lemma FetchInstallsSigned(x: Primitives, d: Bytes, s: Slot, env: Env, accept: bool)
    ensures var t := Fetch(x, d, s, env, accept);
      Installs(t.event) && PinOf(t.slot).Some? ==>
        AnswerAt(s, env).Response? && SignedBy(AnswerAt(s, env).res, PinOf(t.slot).value.fp)
  {
    FetchCache(x, d, s, env, accept);
    if AnswerAt(s, env).Response? {
      SettledInstall(x, d, s, env, AuthorityHint(s, env), AnswerAt(s, env).res, accept);
    }
  }

  /** In any state, whatever fails: what a step installs while it leaves a pin stored carries a
      valid proof of that pin, which covers the domain and the very bytes installed. */
  lemma StepInstallsSigned(x: Primitives, d: Bytes, s: Slot, step: Step)
    ensures var answer := AnswerOf(s, step); var pin := PinOf(Next(x, d, s, step));
      Installs(EventOf(x, d, s, step)) && pin.Some? ==>
        && answer.Some? && answer.value.Response? && SignedBy(answer.value.res, pin.value.fp)
        && (Vouched(x, d, answer.value.res) ==> Consistent(x, answer.value.res.proof.value, d, answer.value.res.raw))
  {
    match step
    case Deliver(env, accept) =>
      FetchInstallsSigned(x, d, s, env, accept);
      DeliveryIsResolution(x, d, s, env, accept);
      ResolutionIsFetch(x, d, s, env, false, accept);
    case Background(env, force) =>
      FetchInstallsSigned(x, d, s, env, false);
      ResolutionIsFetch(x, d, s, env, force, false);
    case _ =>
  }

  /** The response last installed in a run, unless the peer was forgotten since. */
  function LastInstalled(x: Primitives, d: Bytes, s: Slot, steps: seq<Step>): Option<Fetched>
    decreases |steps|
  {
    if steps == [] then None
    else
      var init, step := steps[..|steps| - 1], steps[|steps| - 1];
      var before := After(x, d, s, init);
      var answer := AnswerOf(before, step);
      if step.Forgetting? then None
      else if Installs(EventOf(x, d, before, step)) && answer.Some? && answer.value.Response? then Some(answer.value.res)
      else LastInstalled(x, d, s, init)
  }

  /** In every reachable state the effective manifest is the one last installed, and nothing
      else is ever effective. */
  lemma {:induction false} EffectiveIsLastInstalled(x: Primitives, d: Bytes, steps: seq<Step>)
    ensures var last := LastInstalled(x, d, EMPTY_SLOT, steps);
      CacheOf(After(x, d, EMPTY_SLOT, steps)).effective == if last.Some? then Some(RecordOf(last.value)) else None
    decreases |steps|
  {
    if steps != [] {
      var init, step := steps[..|steps| - 1], steps[|steps| - 1];
      EffectiveIsLastInstalled(x, d, init);
      if !step.Forgetting? {
        StepCache(x, d, After(x, d, EMPTY_SLOT, init), step);
      }
    }
  }

  // --- what the cache serves -----------------------------------------------------------------

  /** A cached answer to `r`: the fetch without its proof, living as long as the manifest. */
  function FromCache(r: Fetched): Fetched {
    Fetched(r.manifest, r.id, r.raw, r.fetchedAt, r.manifest.expiresAt, r.host, None, [])
  }

  lemma ResultOfRecord(x: Primitives, d: Bytes, r: Fetched)
    requires Vouched(x, d, r)
    ensures ResultOf(x, RecordOf(r), d) == Served(FromCache(r))
  {
  }

  /** The reading of the clock on which a resolution serves the cache, if it does. */
  function ResolveReading(x: Primitives, d: Bytes, s: Slot, env: Env, force: bool): Site {
    if !force && Shortcut(x, d, s, env).Some? then ShortcutClockAgain else RefusalClock
  }

  /** The same for a delivery, which serves the cache it found on entry when that is fresh or the
      resolution fails. */
  function DeliveryReading(x: Primitives, d: Bytes, s: Slot, env: Env, accept: bool): Site {
    if EntryCache(s, env).Some?
       && (!NeedsRefresh(EntryPeer(s, env), env.clock(EntryClock)) || Resolve(x, d, s, env, false, accept).outcome.Failed?)
    then EntryClock
    else ResolveReading(x, d, s, env, false)
  }

  /** An outcome is the answer just given, or the cached fetch, unexpired at the reading that
      served it. */
  predicate Genuine(s: Slot, env: Env, cached: Option<Fetched>, o: Outcome, reading: Site) {
    o.Served? ==>
      || AnswerAt(s, env) == Response(o.res)
      || (cached.Some? && o.res == FromCache(cached.value) && cached.value.manifest.expiresAt > env.clock(reading))
  }

  /** The slot's record belongs to `d` and holds what `cached` says. */
  predicate Holds(x: Primitives, d: Bytes, s: Slot, cached: Option<Fetched>) {
    && CacheOf(s).effective == (if cached.Some? then Some(RecordOf(cached.value)) else None)
    && (cached.Some? ==> Vouched(x, d, cached.value))
    && (s.peer.Some? ==> s.peer.value.domain == d)
  }

  lemma RefusalGenuine(
    x: Primitives, d: Bytes, s: Slot, env: Env, prev: Option<Peer>, r: Fetched, v: Verdict, accept: bool, cached: Option<Fetched>)
    requires Holds(x, d, s, cached) && AnswerAt(s, env) == Response(r)
    requires prev.Some? ==> prev.value.effective == CacheOf(s).effective
    ensures Genuine(s, env, cached, RefusalOutcome(x, d, env, prev, r, v, accept), RefusalClock)
  {
    if cached.Some? { ResultOfRecord(x, d, cached.value); }
  }

  lemma SettleGenuine(x: Primitives, d: Bytes, s: Slot, env: Env, accept: bool, cached: Option<Fetched>)
    requires Holds(x, d, s, cached) && AnswerAt(s, env).Response?
    ensures Genuine(s, env, cached, Settle(x, d, s, env, AuthorityHint(s, env), AnswerAt(s, env).res, accept).outcome, RefusalClock)
  {
    var r := AnswerAt(s, env).res;
    var prev := ReadPeer(s, env, DecisionRead).GetOr(None);
    RefusalGenuine(x, d, s, env, prev, r, DecideFor(prev, r, env.clock(DecisionClock)), accept, cached);
  }

  lemma ResolveGenuine(x: Primitives, d: Bytes, s: Slot, env: Env, force: bool, accept: bool, cached: Option<Fetched>)
    requires Holds(x, d, s, cached)
    ensures Genuine(s, env, cached, Resolve(x, d, s, env, force, accept).outcome, ResolveReading(x, d, s, env, force))
  {
    if cached.Some? { ResultOfRecord(x, d, cached.value); }
    if AnswerAt(s, env).Response? { SettleGenuine(x, d, s, env, accept, cached); }
  }

  lemma DeliveryGenuine(x: Primitives, d: Bytes, s: Slot, env: Env, accept: bool, cached: Option<Fetched>)
    requires Holds(x, d, s, cached)
    ensures Genuine(s, env, cached, ResolveEncrypting(x, d, s, env, accept).outcome, DeliveryReading(x, d, s, env, accept))
  {
    if cached.Some? { ResultOfRecord(x, d, cached.value); }
    ResolveGenuine(x, d, s, env, false, accept, cached);
  }

  // --- whose record it is --------------------------------------------------------------------

  predicate Owned(d: Bytes, s: Slot) {
    s.peer.Some? ==> s.peer.value.domain == d
  }

  lemma FollowOwned(x: Primitives, d: Bytes, s: Slot, env: Env, route: Bytes, prev: Option<Peer>, r: Fetched)
    requires Owned(d, s)
    ensures Owned(d, FollowRotation(x, d, s, env, route, prev, r).0)
  {
  }

  lemma RefuseOwned(
    x: Primitives, d: Bytes, s: Slot, env: Env, route: Bytes, prev: Option<Peer>, r: Fetched, v: Verdict, accept: bool)
    requires Owned(d, s)
    ensures Owned(d, Refuse(x, d, s, env, route, prev, r, v, accept).slot)
  {
    FollowOwned(x, d, s, env, route, prev, r);
  }

  lemma ConcludeOwned(
    x: Primitives, d: Bytes, s: Slot, env: Env, route: Bytes, prev: Option<Peer>, r: Fetched, v: Verdict, accept: bool)
    requires Owned(d, s)
    ensures Owned(d, Conclude(x, d, s, env, route, prev, r, v, accept).slot)
  {
    RefuseOwned(x, d, Folded(d, s, prev, r, v, env), env, route, prev, r, v, accept);
  }

  lemma FetchOwned(x: Primitives, d: Bytes, s: Slot, env: Env, accept: bool)
    requires Owned(d, s)
    ensures Owned(d, Fetch(x, d, s, env, accept).slot)
  {
    if AnswerAt(s, env).Response? {
      var r := AnswerAt(s, env).res;
      var prev := ReadPeer(s, env, DecisionRead).GetOr(None);
      var v := DecideFor(prev, r, env.clock(DecisionClock));
      ConcludeOwned(x, d, MarkSlot(s, r.fetchedAt), env, AuthorityHint(s, env), prev, r, v, accept);
    }
  }

  lemma StepOwned(x: Primitives, d: Bytes, s: Slot, step: Step)
    requires Owned(d, s)
    ensures Owned(d, Next(x, d, s, step))
  {
    match step
    case Deliver(env, accept) =>
      FetchOwned(x, d, s, env, accept);
      DeliveryIsResolution(x, d, s, env, accept);
      ResolutionIsFetch(x, d, s, env, false, accept);
    case Background(env, force) =>
      FetchOwned(x, d, s, env, false);
      ResolutionIsFetch(x, d, s, env, force, false);
    case _ =>
  }

  // --- the refinement ------------------------------------------------------------------------

  /** Every answer of the run passed the authority client's checks. */
  predicate VouchedStep(x: Primitives, d: Bytes, s: Slot, step: Step) {
    var answer := AnswerOf(s, step);
    answer.Some? && answer.value.Response? ==> Vouched(x, d, answer.value.res)
  }

  predicate VouchedRun(x: Primitives, d: Bytes, steps: seq<Step>) {
    forall i :: 0 <= i < |steps| ==> VouchedStep(x, d, After(x, d, EMPTY_SLOT, steps[..i]), steps[i])
  }

  lemma VouchedPrefix(x: Primitives, d: Bytes, steps: seq<Step>)
    requires VouchedRun(x, d, steps) && steps != []
    ensures var k := |steps| - 1;
      VouchedRun(x, d, steps[..k]) && VouchedStep(x, d, After(x, d, EMPTY_SLOT, steps[..k]), steps[k])
  {
    var init := steps[..|steps| - 1];
    assert forall i :: 0 <= i < |init| ==> init[i] == steps[i] && init[..i] == steps[..i];
  }

  lemma {:induction false} HoldsOverRun(x: Primitives, d: Bytes, steps: seq<Step>)
    requires VouchedRun(x, d, steps)
    ensures Holds(x, d, After(x, d, EMPTY_SLOT, steps), LastInstalled(x, d, EMPTY_SLOT, steps))
    decreases |steps|
  {
    EffectiveIsLastInstalled(x, d, steps);
    if steps != [] {
      VouchedPrefix(x, d, steps);
      HoldsOverRun(x, d, steps[..|steps| - 1]);
      StepOwned(x, d, After(x, d, EMPTY_SLOT, steps[..|steps| - 1]), steps[|steps| - 1]);
    }
  }

  /** After any run, a delivery yields what the authority just answered or the last installed
      fetch, unexpired at the reading of the clock that served it. */
  lemma CacheRefinesFetch(x: Primitives, d: Bytes, steps: seq<Step>, env: Env, accept: bool)
    requires VouchedRun(x, d, steps)
    ensures var s := After(x, d, EMPTY_SLOT, steps);
      Genuine(s, env, LastInstalled(x, d, EMPTY_SLOT, steps), ResolveEncrypting(x, d, s, env, accept).outcome,
              DeliveryReading(x, d, s, env, accept))
  {
    HoldsOverRun(x, d, steps);
    var s := After(x, d, EMPTY_SLOT, steps);
    DeliveryGenuine(x, d, s, env, accept, LastInstalled(x, d, EMPTY_SLOT, steps));
  }

  lemma VouchedSeals(x: Primitives, d: Bytes, r: Fetched, now: Time)
    requires Vouched(x, d, r) && r.manifest.expiresAt > now
    ensures SealChecks(x, r, now)
  {
    ParsedSound(x, r.raw, d);
  }

  /** What a delivery serves passes every check Seal makes before it touches a key, up to the
      manifest's expiry. */
  lemma ServedSeals(x: Primitives, d: Bytes, steps: seq<Step>, env: Env, accept: bool, now: Time)
    requires VouchedRun(x, d, steps)
    requires var s := After(x, d, EMPTY_SLOT, steps); VouchedStep(x, d, s, Deliver(env, accept))
    ensures var o := ResolveEncrypting(x, d, After(x, d, EMPTY_SLOT, steps), env, accept).outcome;
      o.Served? && o.res.manifest.expiresAt > now ==> SealChecks(x, o.res, now)
  {
    CacheRefinesFetch(x, d, steps, env, accept);
    HoldsOverRun(x, d, steps);
    var o := ResolveEncrypting(x, d, After(x, d, EMPTY_SLOT, steps), env, accept).outcome;
    var last := LastInstalled(x, d, EMPTY_SLOT, steps);
    if o.Served? && o.res.manifest.expiresAt > now {
      if last.Some? && o.res == FromCache(last.value) {
        VouchedSeals(x, d, last.value, now);
      } else {
        VouchedSeals(x, d, o.res, now);
      }
    }
  }
}
