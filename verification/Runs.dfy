/** Runs of the trust engine on one domain: any mix of deliveries, background resolutions,
    sightings, forgetting and administration, with any store faults, clocks and answers. A step
    runs to completion before the next one starts. The code does not see to that: what pins,
    watermark and history need of it is that no other resolution or DNS sighting of the domain
    falls between the read of the identity and its write (peer/service.go:634-652), and no other
    resolution between that write and the install (peer/service.go:652-720). The downgrade
    protection needs none of it: see Interleavings. */
module Runs {
  import opened Bytes
  import opened Options
  import opened Clock
  import opened Mailkey
  import opened PeerModel
  import opened MemStores
  import opened Verdicts
  import opened Resolution

  datatype Step =
    | Deliver(env: Env, accept: bool)
    | Background(env: Env, force: bool)
    | Sighting(o: Observation, now: Time)
    | Forgetting
    | Administer(policy: Policy, at: Time)
    | Downgrade(off: bool, reason: Bytes, since: Time)

  function Next(x: Primitives, d: Bytes, s: Slot, step: Step): Slot {
    match step
    case Deliver(env, accept) => ResolveEncrypting(x, d, s, env, accept).slot
    case Background(env, force) => Resolve(x, d, s, env, force, false).slot
    case Sighting(o, now) => PutObservationSlot(s, d, o, now)
    case Forgetting => ForgetSlot(s)
    case Administer(policy, at) => SetPolicySlot(s, d, policy, at)
    case Downgrade(off, reason, since) => DowngradeSlot(s, off, reason, since)
  }

  function After(x: Primitives, d: Bytes, s: Slot, steps: seq<Step>): Slot
    decreases |steps|
  {
    if steps == [] then s else Next(x, d, After(x, d, s, steps[..|steps| - 1]), steps[|steps| - 1])
  }

  lemma {:induction false} AfterAppend(x: Primitives, d: Bytes, s: Slot, a: seq<Step>, b: seq<Step>)
    ensures After(x, d, s, a + b) == After(x, d, After(x, d, s, a), b)
    decreases |b|
  {
    if b == [] {
      assert a + b == a;
    } else {
      var n := |b| - 1;
      AfterAppend(x, d, s, a, b[..n]);
      assert (a + b)[..|a + b| - 1] == a + b[..n];
    }
  }

  /** The snapshot the decision was made on still says what the slot says. */
  predicate Snapshot(s: Slot, prev: Option<Peer>) {
    IdentityOf(prev) == IdentityOf(s.peer)
  }

  /** The record the decision is made on; a failed read reads as no record. */
  function PrevOf(s: Slot, env: Env): Option<Peer> { ReadPeer(s, env, DecisionRead).GetOr(None) }

  /** The read before the decision fails, and both trust writes succeed: the identity is decided
      without the record, and written over it. */
  predicate Blind(env: Env) {
    DecisionRead in env.faults && LatchWrite !in env.faults && IdentityWrite !in env.faults
  }

  function EntryPeer(s: Slot, env: Env): Option<Peer> { ReadPeer(s, env, EntryRead).GetOr(None) }

  /** The cached manifest a delivery finds usable on entry. */
  function EntryCache(s: Slot, env: Env): Option<Record> { Usable(EntryPeer(s, env), env.clock(EntryClock)) }

  /** What the authority answered in a call made on this slot. */
  function AnswerAt(s: Slot, env: Env): Answer { env.answer(AuthorityHint(s, env)) }

  function Folded(d: Bytes, s: Slot, prev: Option<Peer>, r: Fetched, v: Verdict, env: Env): Slot {
    SetIdentitySlot(s, d, ApplyIdentity(IdentityOf(prev), v, r, env.clock(IdentityClock)))
  }

  /** A delivery either leaves the slot alone or leaves it as an unforced resolution does. */
  lemma DeliveryIsResolution(x: Primitives, d: Bytes, s: Slot, env: Env, accept: bool)
    ensures var t := ResolveEncrypting(x, d, s, env, accept); var u := Resolve(x, d, s, env, false, accept);
      (t.slot == s && t.event == Nothing) || (t.slot == u.slot && t.event == u.event)
  {
  }

  /** A resolution either leaves the slot alone or settles what the authority answered. */
  lemma ResolutionIsFetch(x: Primitives, d: Bytes, s: Slot, env: Env, force: bool, accept: bool)
    ensures var t := Resolve(x, d, s, env, force, accept); var u := Fetch(x, d, s, env, accept);
      (t.slot == s && t.event == Nothing) || t == u
  {
  }
}

/** No silent downgrade: once a domain has answered over HTTPS, no failure to find a key for it
    is ever reported as a bare one. */
module DowngradeProtection {
  import opened Bytes
  import opened Options
  import opened Clock
  import opened Mailkey
  import opened PeerModel
  import opened MemStores
  import opened Verdicts
  import opened Resolution
  import opened Runs

  predicate NotDisabled(s: Slot) {
    s.peer.Some? ==> s.peer.value.policy != Disabled
  }

  predicate SamePolicy(s: Slot, t: Slot) {
    s.peer.Some? ==> t.peer.Some? && t.peer.value.policy == s.peer.value.policy
  }

  /** The latch is only ever set, and only an administrator lifts it. */
  predicate LatchKept(s: Slot, t: Slot) {
    (s.cap.ever ==> t.cap.ever) && t.cap.disabled == s.cap.disabled
  }

  lemma CachedFailureIsPlain(x: Primitives, rec: Record, d: Bytes)
    ensures var o := ResultOf(x, rec, d); o.Served? || o == Failed(Plain)
  {
  }

  lemma FollowKeeps(x: Primitives, d: Bytes, s: Slot, env: Env, route: Bytes, prev: Option<Peer>, r: Fetched)
    requires s.peer.Some?
    ensures var t := FollowRotation(x, d, s, env, route, prev, r).0; t.cap == s.cap && SamePolicy(s, t)
  {
  }

  lemma FailureKeeps(s: Slot, d: Bytes, now: Time)
    ensures var t := RecordFailureSlot(s, d, now); t.cap == s.cap && SamePolicy(s, t)
  {
  }

  lemma RefusalIsHeld(x: Primitives, d: Bytes, env: Env, prev: Option<Peer>, r: Fetched, v: Verdict, accept: bool)
    ensures var o := RefusalOutcome(x, d, env, prev, r, v, accept); o.Served? || o.err == Plain || o.err.Required?
  {
    var u := Usable(prev, env.clock(RefusalClock));
    if u.Some? { CachedFailureIsPlain(x, u.value, d); }
  }

  lemma RefuseKeeps(
    x: Primitives, d: Bytes, s: Slot, env: Env, route: Bytes, prev: Option<Peer>, r: Fetched, v: Verdict, accept: bool)
    requires s.peer.Some?
    ensures var t := Refuse(x, d, s, env, route, prev, r, v, accept);
      && t.slot.cap == s.cap && SamePolicy(s, t.slot)
      && (t.outcome.Failed? ==> t.outcome.err == Plain || t.outcome.err.Required?)
  {
    FollowKeeps(x, d, s, env, route, prev, r);
    FailureKeeps(FollowRotation(x, d, s, env, route, prev, r).0, d, env.clock(RefusalWrite));
    FailureKeeps(s, d, env.clock(RefusalWrite));
    RefusalIsHeld(x, d, env, prev, r, v, accept);
  }

  lemma SettleKeeps(x: Primitives, d: Bytes, s: Slot, env: Env, route: Bytes, r: Fetched, accept: bool)
    ensures var t := Settle(x, d, s, env, route, r, accept);
      && LatchKept(s, t.slot) && SamePolicy(s, t.slot)
      && (LatchWrite !in env.faults ==> t.slot.cap.ever)
      && (t.outcome.Failed? ==>
            || t.outcome.err.Required?
            || (t.slot.cap.ever && t.outcome.err == Plain)
            || (t.slot.cap.ever && t.outcome.err == DisabledError && !NotDisabled(s)))
  {
    var prev := ReadPeer(s, env, DecisionRead).GetOr(None);
    var v := DecideFor(prev, r, env.clock(DecisionClock));
    if LatchWrite !in env.faults && IdentityWrite !in env.faults {
      var latched := MarkSlot(s, r.fetchedAt);
      var trusted := SetIdentitySlot(latched, d, ApplyIdentity(IdentityOf(prev), v, r, env.clock(IdentityClock)));
      if !v.acceptFetched {
        RefuseKeeps(x, d, trusted, env, route, prev, r, v, accept);
      }
    }
  }

  lemma ResolveKeeps(x: Primitives, d: Bytes, s: Slot, env: Env, force: bool, accept: bool)
    ensures var t := Resolve(x, d, s, env, force, accept);
      LatchKept(s, t.slot) && SamePolicy(s, t.slot)
    ensures var t := Resolve(x, d, s, env, force, accept);
      NotDisabled(s) && t.outcome.Failed? && IsDisabled(t.outcome.err) ==> t.outcome.err == Foreign(true) || t.outcome.err.Required?
  {
    var route := AuthorityHint(s, env);
    if env.answer(route).Response? {
      SettleKeeps(x, d, s, env, route, env.answer(route).res, accept);
    }
  }

  lemma UnwrappedLatch(x: Primitives, d: Bytes, s: Slot, env: Env, accept: bool)
    ensures var t := ResolveUnwrapped(x, d, s, env, accept).1;
      LatchKept(s, t.slot) && SamePolicy(s, t.slot)
  {
    ResolveKeeps(x, d, s, env, false, accept);
  }

  lemma UnwrappedKeeps(x: Primitives, d: Bytes, s: Slot, env: Env, accept: bool)
    ensures var t := ResolveUnwrapped(x, d, s, env, accept).1;
      && LatchKept(s, t.slot) && SamePolicy(s, t.slot)
      && (NotDisabled(s) && t.outcome.Failed? && IsDisabled(t.outcome.err) ==> t.outcome.err == Foreign(true) || t.outcome.err.Required?)
  {
    UnwrappedLatch(x, d, s, env, accept);
    ResolveKeeps(x, d, s, env, false, accept);
    var p := ReadPeer(s, env, EntryRead).GetOr(None);
    if p.Some? && p.value.effective.Some? {
      CachedFailureIsPlain(x, p.value.effective.value, p.value.domain);
    }
  }

  /** With the latch in force and the domain not disabled, a delivery yields a manifest or a
      hold; only a resolver that itself reports "disabled" gets through unwrapped. */
  lemma LatchedDelivery(x: Primitives, d: Bytes, s: Slot, env: Env, accept: bool)
    requires s.cap.Requires() && NotDisabled(s)
    ensures var o := ResolveEncrypting(x, d, s, env, accept).outcome;
      o.Served? || o.err.Required? || o.err == Foreign(true)
  {
    UnwrappedKeeps(x, d, s, env, accept);
  }

  lemma StepKeepsLatch(x: Primitives, d: Bytes, s: Slot, step: Step)
    requires !step.Downgrade?
    ensures LatchKept(s, Next(x, d, s, step))
  {
    match step
    case Deliver(env, accept) => UnwrappedKeeps(x, d, s, env, accept);
    case Background(env, force) => ResolveKeeps(x, d, s, env, force, false);
    case _ =>
  }

  predicate NoDowngradeIn(steps: seq<Step>) {
    forall i :: 0 <= i < |steps| ==> !steps[i].Downgrade?
  }

  lemma {:induction false} LatchSurvives(x: Primitives, d: Bytes, s: Slot, steps: seq<Step>)
    requires NoDowngradeIn(steps)
    ensures LatchKept(s, After(x, d, s, steps))
    decreases |steps|
  {
    if steps != [] {
      var n := |steps| - 1;
      LatchSurvives(x, d, s, steps[..n]);
      StepKeepsLatch(x, d, After(x, d, s, steps[..n]), steps[n]);
    }
  }

  /** Once an HTTPS answer has been recorded, whatever run follows short of an administrator's
      downgrade: every later delivery to a domain that is not disabled yields a manifest or a
      hold. Forgetting the peer does not help. */
  lemma NoSilentDowngradeInRuns(x: Primitives, d: Bytes, s: Slot, before: seq<Step>, steps: seq<Step>, env: Env, accept: bool)
    requires After(x, d, s, before).cap.Requires()
    requires NoDowngradeIn(steps)
    requires NotDisabled(After(x, d, s, before + steps))
    ensures var o := ResolveEncrypting(x, d, After(x, d, s, before + steps), env, accept).outcome;
      o.Served? || o.err.Required? || o.err == Foreign(true)
  {
    AfterAppend(x, d, s, before, steps);
    LatchSurvives(x, d, After(x, d, s, before), steps);
    LatchedDelivery(x, d, After(x, d, s, before + steps), env, accept);
  }

  lemma AnsweredIsGuarded(x: Primitives, d: Bytes, s: Slot, env: Env, accept: bool)
    requires NotDisabled(s) && AnswerAt(s, env).Response? && Shortcut(x, d, s, env).None?
    ensures var t := Resolve(x, d, s, env, false, accept);
      && t.slot.cap.disabled == s.cap.disabled
      && (t.outcome.Failed? ==> t.outcome.err.Required? || (t.slot.cap.ever && t.outcome.err == Plain))
  {
    SettleKeeps(x, d, s, env, AuthorityHint(s, env), AnswerAt(s, env).res, accept);
  }

  /** The very call that first hears from an authority is protected too: whichever of its store
      writes fail, a domain that answered a call with no cache to serve, sighted before or not, is
      never reported as having no key. */
  lemma FirstAnswerIsNeverBare(x: Primitives, d: Bytes, s: Slot, env: Env, accept: bool)
    requires NotDisabled(s) && !s.cap.disabled && EntryRead !in env.faults
    requires EntryCache(s, env).None? && Shortcut(x, d, s, env).None? && AnswerAt(s, env).Response?
    ensures var o := ResolveEncrypting(x, d, s, env, accept).outcome; o.Served? || o.err.Required?
  {
    AnsweredIsGuarded(x, d, s, env, accept);
  }

  /** A bare error is possible only while the domain is not known to answer, or is disabled. */
  lemma BareMeansUnprotected(x: Primitives, d: Bytes, s: Slot, env: Env, accept: bool)
    requires NotDisabled(s)
    ensures var t := ResolveEncrypting(x, d, s, env, accept);
      t.outcome.Failed? && !t.outcome.err.Required? && t.outcome.err != Foreign(true) ==>
        && !t.slot.cap.Requires() && PolicyRead !in env.faults
        && (EntryRead !in env.faults && s.peer.Some? ==> s.peer.value.policy != Require)
  {
    UnwrappedKeeps(x, d, s, env, accept);
  }
}
