/** A call is not atomic: between two of its store accesses other calls, sightings and an
    administrator may change the store (peer/service.go:119, peer/service.go:470-736). Here a
    domain's slot goes through single store operations, and a delivery reads it at moments of
    that history. */
module Interleavings {
  import opened Bytes
  import opened Options
  import opened Clock
  import opened Mailkey
  import opened PeerModel
  import opened MemStores
  import opened Verdicts
  import opened Resolution
  import opened Runs
  import opened DowngradeProtection

  // --- single store operations ---------------------------------------------------------------

  datatype Operation =
    | Sight(o: Observation, now: Time)
    | InstallResult(r: Fetched, now: Time)
    | NoteFailure(now: Time)
    | ChangePolicy(policy: Policy, now: Time)
    | ForgetRecord
    | WriteIdentity(st: IdentityState)
    | Latch(at: Time)
    | SetDowngrade(off: bool, reason: Bytes, at: Time)

  function Applied(d: Bytes, s: Slot, op: Operation): Slot {
    match op
    case Sight(o, now) => PutObservationSlot(s, d, o, now)
    case InstallResult(r, now) => InstallSlot(s, d, r, now).0
    case NoteFailure(now) => RecordFailureSlot(s, d, now)
    case ChangePolicy(policy, now) => SetPolicySlot(s, d, policy, now)
    case ForgetRecord => ForgetSlot(s)
    case WriteIdentity(st) => SetIdentitySlot(s, d, st)
    case Latch(at) => MarkSlot(s, at)
    case SetDowngrade(off, reason, at) => DowngradeSlot(s, off, reason, at)
  }

  function SlotAfter(d: Bytes, s: Slot, ops: seq<Operation>): Slot
    decreases |ops|
  {
    if ops == [] then s else Applied(d, SlotAfter(d, s, ops[..|ops| - 1]), ops[|ops| - 1])
  }

  lemma {:induction false} SlotAfterJoin(d: Bytes, s: Slot, a: seq<Operation>, b: seq<Operation>)
    ensures SlotAfter(d, s, a + b) == SlotAfter(d, SlotAfter(d, s, a), b)
    decreases |b|
  {
    if b == [] {
      assert a + b == a;
    } else {
      var n := |b| - 1;
      SlotAfterJoin(d, s, a, b[..n]);
      assert (a + b)[..|a + b| - 1] == a + b[..n];
    }
  }

  /** No single operation but an administrator's downgrade touches a set latch. */
  lemma OperationKeepsLatch(d: Bytes, s: Slot, op: Operation)
    requires !op.SetDowngrade?
    ensures LatchKept(s, Applied(d, s, op))
  {
  }

  predicate NoDowngradeAmong(ops: seq<Operation>) {
    forall i :: 0 <= i < |ops| ==> !ops[i].SetDowngrade?
  }

  lemma {:induction false} LatchKeptThrough(d: Bytes, s: Slot, ops: seq<Operation>)
    requires NoDowngradeAmong(ops)
    ensures LatchKept(s, SlotAfter(d, s, ops))
    decreases |ops|
  {
    if ops != [] {
      var n := |ops| - 1;
      LatchKeptThrough(d, s, ops[..n]);
      OperationKeepsLatch(d, SlotAfter(d, s, ops[..n]), ops[n]);
    }
  }

  // --- a delivery over a changing store --------------------------------------------------------

  /** The slot a delivery finds at each of its store accesses. */
  type View = Site -> Slot

  function FollowsAcross(x: Primitives, d: Bytes, at: View, env: Env, route: Bytes, prev: Option<Peer>, r: Fetched): bool {
    && RotationTarget(x, d, env, route, prev, r).Some?
    && RotationIdentityWrite !in env.faults && RotationInstallWrite !in env.faults
    && InstallSlot(at(RotationInstallWrite), d, r, env.clock(RotationInstallWrite)).1 == Stored
  }

  function RefuseAcross(
    x: Primitives, d: Bytes, at: View, env: Env, route: Bytes, prev: Option<Peer>, r: Fetched, v: Verdict, accept: bool): Outcome
  {
    if v.reason == PinnedOtherSigner && FollowsAcross(x, d, at, env, route, prev, r) then Served(r)
    else RefusalOutcome(x, d, env, prev, r, v, accept)
  }

  function SettleAcross(x: Primitives, d: Bytes, at: View, env: Env, route: Bytes, r: Fetched, accept: bool): Outcome {
    var prev := PrevOf(at(DecisionRead), env);
    var v := DecideFor(prev, r, env.clock(DecisionClock));
    if LatchWrite in env.faults || IdentityWrite in env.faults then Failed(Required(Plain))
    else if v.acceptFetched then Install(d, at(InstallWrite), env, r).outcome
    else RefuseAcross(x, d, at, env, route, prev, r, v, accept)
  }

  function FetchAcross(x: Primitives, d: Bytes, at: View, env: Env, accept: bool): Outcome {
    var route := AuthorityHint(at(HintRead), env);
    match env.answer(route)
    case Response(r) => SettleAcross(x, d, at, env, route, r, accept)
    case Unreachable(says) => if FailureWrite in env.faults then Failed(Plain) else Failed(Foreign(says))
  }

  function ResolveAcross(x: Primitives, d: Bytes, at: View, env: Env, force: bool, accept: bool): Outcome {
    match (if force then None else Shortcut(x, d, at(ShortcutRead), env))
    case Some(cached) => cached
    case None => FetchAcross(x, d, at, env, accept)
  }

  function UnwrappedAcross(x: Primitives, d: Bytes, at: View, env: Env, accept: bool): (Option<Peer>, Outcome) {
    match ReadPeer(at(EntryRead), env, EntryRead)
    case Err => (None, Failed(Plain))
    case Ok(p) =>
      if p.Some? && p.value.policy == Disabled then (p, Failed(DisabledError))
      else
        match Usable(p, env.clock(EntryClock))
        case None => (p, ResolveAcross(x, d, at, env, false, accept))
        case Some(rec) =>
          if !NeedsRefresh(p, env.clock(EntryClock)) then (p, ResultOf(x, rec, p.value.domain))
          else
            var o := ResolveAcross(x, d, at, env, false, accept);
            (p, if o.Served? then o else ResultOf(x, rec, p.value.domain))
  }

  /** ResolveForEncryption and ResolveAcceptingUnpinned, each store access on its own slot. */
  function DeliverAcross(x: Primitives, d: Bytes, at: View, env: Env, accept: bool): Outcome {
    var (p, o) := UnwrappedAcross(x, d, at, env, accept);
    if o.Served? then o else Failed(PolicyFailure(at(PolicyRead), env, p, o.err))
  }

  // --- an atomic call is one of them -----------------------------------------------------------

  /** The slot the identity was just written to. */
  function TrustedSlot(d: Bytes, s: Slot, env: Env, r: Fetched): Slot {
    var prev := PrevOf(s, env);
    Folded(d, MarkSlot(s, r.fetchedAt), prev, r, DecideFor(prev, r, env.clock(DecisionClock)), env)
  }

  /** The slot a followed rotation installs on. */
  function MovedSlot(x: Primitives, d: Bytes, s: Slot, env: Env, r: Fetched): Slot {
    var prev := PrevOf(s, env);
    match RotationTarget(x, d, env, AuthorityHint(s, env), prev, r)
    case None => s
    case Some(to) =>
      SetIdentitySlot(TrustedSlot(d, s, env, r), d, RotatedIdentity(IdentityOf(prev), to, r, env.clock(PinClock)))
  }

  /** What a call finds when nothing else touches the store while it lasts. */
  ghost predicate Undisturbed(x: Primitives, d: Bytes, s: Slot, at: View, env: Env, accept: bool) {
    && at(EntryRead) == s && at(ShortcutRead) == s && at(HintRead) == s && at(DecisionRead) == s
    && (AnswerAt(s, env).Response? ==>
          && at(InstallWrite) == TrustedSlot(d, s, env, AnswerAt(s, env).res)
          && at(RotationInstallWrite) == MovedSlot(x, d, s, env, AnswerAt(s, env).res))
    && at(PolicyRead) == ResolveUnwrapped(x, d, s, env, accept).1.slot
  }

  lemma SettleUndisturbed(x: Primitives, d: Bytes, s: Slot, at: View, env: Env, accept: bool)
    requires Undisturbed(x, d, s, at, env, accept) && AnswerAt(s, env).Response?
    ensures var route, r := AuthorityHint(s, env), AnswerAt(s, env).res;
      SettleAcross(x, d, at, env, route, r, accept) == Settle(x, d, s, env, route, r, accept).outcome
  {
  }

  lemma ResolveUndisturbed(x: Primitives, d: Bytes, s: Slot, at: View, env: Env, accept: bool)
    requires Undisturbed(x, d, s, at, env, accept)
    ensures ResolveAcross(x, d, at, env, false, accept) == Resolve(x, d, s, env, false, accept).outcome
  {
    if AnswerAt(s, env).Response? { SettleUndisturbed(x, d, s, at, env, accept); }
  }

  /** Undisturbed, a delivery over a changing store is the atomic delivery. */
  lemma DeliveryUndisturbed(x: Primitives, d: Bytes, s: Slot, at: View, env: Env, accept: bool)
    requires Undisturbed(x, d, s, at, env, accept)
    ensures DeliverAcross(x, d, at, env, accept) == ResolveEncrypting(x, d, s, env, accept).outcome
  {
    ResolveUndisturbed(x, d, s, at, env, accept);
  }

  // --- no silent downgrade -----------------------------------------------------------------------

  /** The only bare errors that leave a resolution, and what each needs. */
  predicate Guarded(o: Outcome, disabled: bool) {
    o.Served? || o.err == Plain || o.err.Required? || o.err.Foreign? || (disabled && o.err == DisabledError)
  }

  lemma SettleGuarded(x: Primitives, d: Bytes, at: View, env: Env, route: Bytes, r: Fetched, accept: bool)
    ensures Guarded(SettleAcross(x, d, at, env, route, r, accept), !NotDisabled(at(InstallWrite)))
  {
    var prev := PrevOf(at(DecisionRead), env);
    RefusalIsHeld(x, d, env, prev, r, DecideFor(prev, r, env.clock(DecisionClock)), accept);
  }

  lemma FetchGuarded(x: Primitives, d: Bytes, at: View, env: Env, accept: bool)
    ensures Guarded(FetchAcross(x, d, at, env, accept), !NotDisabled(at(InstallWrite)))
  {
    var route := AuthorityHint(at(HintRead), env);
    if env.answer(route).Response? { SettleGuarded(x, d, at, env, route, env.answer(route).res, accept); }
  }

  lemma ShortcutGuarded(x: Primitives, d: Bytes, s: Slot, env: Env)
    ensures var c := Shortcut(x, d, s, env); c.Some? ==> Guarded(c.value, !NotDisabled(s))
  {
    if s.peer.Some? && s.peer.value.effective.Some? {
      CachedFailureIsPlain(x, s.peer.value.effective.value, d);
    }
  }

  lemma ResolveGuarded(x: Primitives, d: Bytes, at: View, env: Env, force: bool, accept: bool)
    ensures Guarded(ResolveAcross(x, d, at, env, force, accept), !NotDisabled(at(ShortcutRead)) || !NotDisabled(at(InstallWrite)))
  {
    ShortcutGuarded(x, d, at(ShortcutRead), env);
    FetchGuarded(x, d, at, env, accept);
  }

  /** The domain is not administratively disabled whenever the delivery asks. */
  predicate Enabled(at: View) {
    NotDisabled(at(EntryRead)) && NotDisabled(at(ShortcutRead)) && NotDisabled(at(InstallWrite))
  }

  lemma UnwrappedGuarded(x: Primitives, d: Bytes, at: View, env: Env, accept: bool)
    requires Enabled(at)
    ensures Guarded(UnwrappedAcross(x, d, at, env, accept).1, false)
  {
    ResolveGuarded(x, d, at, env, false, accept);
    var p := EntryPeer(at(EntryRead), env);
    if p.Some? && p.value.effective.Some? {
      CachedFailureIsPlain(x, p.value.effective.value, p.value.domain);
    }
  }

  lemma PolicyHolds(s: Slot, env: Env, p: Option<Peer>, cause: Failure)
    requires s.cap.Requires()
    requires cause == Plain || cause.Required? || cause.Foreign?
    ensures var e := PolicyFailure(s, env, p, cause); e.Required? || e == Foreign(true)
  {
  }

  /** One delivery, whatever happens to the store between its accesses: if the latch is in force
      when the policy is asked, it yields a manifest or a hold; only a resolver that itself reports
      "disabled" gets through unwrapped. */
  lemma DeliveryAcrossHolds(x: Primitives, d: Bytes, at: View, env: Env, accept: bool)
    requires at(PolicyRead).cap.Requires() && Enabled(at)
    ensures var o := DeliverAcross(x, d, at, env, accept); o.Served? || o.err.Required? || o.err == Foreign(true)
  {
    UnwrappedGuarded(x, d, at, env, accept);
    var (p, o) := UnwrappedAcross(x, d, at, env, accept);
    if o.Failed? { PolicyHolds(at(PolicyRead), env, p, o.err); }
  }

  /** What a delivery finds that makes its accesses at the moments `when` of a history. */
  function Seen(d: Bytes, s: Slot, ops: seq<Operation>, when: Site -> nat): View
    requires forall site :: when(site) <= |ops|
  {
    site requires when(site) <= |ops| => SlotAfter(d, s, ops[..when(site)])
  }

  /** No silent downgrade. Let the store go through any operations whatever, of deliveries,
      background resolutions, sightings, forgetting and administrators, interleaved in any way;
      let the latch be in force at some moment and no administrator downgrade the domain from
      there to the moment the policy is asked. Then a delivery that makes its accesses anywhere in
      that history, while the domain is not disabled, yields a manifest or a hold. */
  lemma NoSilentDowngrade(
    x: Primitives, d: Bytes, s: Slot, ops: seq<Operation>, latched: nat, when: Site -> nat, env: Env, accept: bool)
    requires (forall site :: when(site) <= |ops|) && latched <= when(PolicyRead)
    requires SlotAfter(d, s, ops[..latched]).cap.Requires()
    requires NoDowngradeAmong(ops[latched..when(PolicyRead)])
    requires Enabled(Seen(d, s, ops, when))
    ensures var o := DeliverAcross(x, d, Seen(d, s, ops, when), env, accept);
      o.Served? || o.err.Required? || o.err == Foreign(true)
  {
    var a, b := ops[..latched], ops[latched..when(PolicyRead)];
    assert a + b == ops[..when(PolicyRead)];
    SlotAfterJoin(d, s, a, b);
    LatchKeptThrough(d, SlotAfter(d, s, a), b);
    DeliveryAcrossHolds(x, d, Seen(d, s, ops, when), env, accept);
  }
}
