/** No rollback: between followed rotations, what is installed only moves forward in time. */
module Epochs {
  import opened Bytes
  import opened Options
  import opened Clock
  import opened Mailkey
  import opened PeerModel
  import opened MemStores
  import opened Verdicts
  import opened Resolution
  import opened Runs

  /** The effective manifest followed by the history, newest first. */
  function Timeline(p: Option<Peer>): seq<Record> {
    if p.None? || p.value.effective.None? then [] else [p.value.effective.value] + p.value.history
  }

  /** The first `n` entries of a timeline were installed since the last followed rotation; they
      are strictly newest first, and the watermark is at the newest or beyond it. */
  predicate Ordered(p: Option<Peer>, n: nat) {
    var tl := Timeline(p);
    && n <= |tl|
    && (p.Some? && p.value.effective.None? ==> p.value.history == [])
    && (forall i, j :: 0 <= i < j < n ==> tl[i].issuedAt > tl[j].issuedAt)
    && (n > 0 ==> tl[0].issuedAt > 0 && AtLeast(IdentityOf(p), tl[0]))
    && (p.Some? ==> p.value.identity.issuedAt >= 0)
  }

  predicate AtLeast(st: IdentityState, rec: Record) {
    st.issuedAt > rec.issuedAt || (st.issuedAt == rec.issuedAt && st.manifestId == rec.id)
  }

  /** The watermark stands at this response. */
  predicate StandsAt(st: IdentityState, r: Fetched) {
    st.issuedAt == r.manifest.issuedAt && st.manifestId == r.id
  }

  /** A watermark: when the manifest last verified was issued, and its id. */
  datatype Mark = Mark(at: Time, id: Bytes)

  /** `m` is later than the watermark of `st`, or the same. */
  predicate Keeps(st: IdentityState, m: Mark) {
    m.at > st.issuedAt || (m.at == st.issuedAt && m.id == st.manifestId)
  }

  /** The watermark did not move back, and did not swap manifests at one instant. */
  predicate Forward(a: IdentityState, b: IdentityState) {
    Keeps(a, Mark(b.issuedAt, b.manifestId))
  }

  /** The watermark a response leaves when the record could not be read. */
  function BlindMark(r: Fetched): Mark {
    if Lapsed(r) then Mark(0, []) else Mark(r.manifest.issuedAt, r.id)
  }

  /** The failed read costs the watermark: what is written over it is older, or another manifest. */
  predicate RollsBack(env: Env, st: IdentityState, r: Fetched) {
    Blind(env) && !Keeps(st, BlindMark(r))
  }

  predicate NewerOrSame(r: Fetched, rec: Record) {
    r.manifest.issuedAt > rec.issuedAt || (r.manifest.issuedAt == rec.issuedAt && r.id == rec.id)
  }

  /** The epoch's length once manifest `id` is installed over `top`, within the history limit. */
  function Extended(top: Option<Record>, id: Bytes, n: nat): nat {
    var longer := if top.Some? && top.value.id != id then n + 1 else if n == 0 then 1 else n;
    if longer > HISTORY_LIMIT + 1 then HISTORY_LIMIT + 1 else longer
  }

  lemma TimelineInstalled(p: Peer, r: Fetched, now: Time)
    requires p.effective.None? ==> p.history == []
    ensures var tl := Timeline(Some(Installed(p, r, now)));
      if Rotates(p, r) then tl == [RecordOf(r)] + Recent([p.effective.value.(status := Historical)] + p.history)
      else tl == [RecordOf(r)] + p.history
  {
  }

  lemma RotatedOrdered(p: Peer, r: Fetched, now: Time, n: nat)
    requires Ordered(Some(p), n) && StandsAt(p.identity, r) && r.manifest.issuedAt > 0 && Rotates(p, r)
    requires n > 0 ==> NewerOrSame(r, Timeline(Some(p))[0])
    ensures Ordered(Some(Installed(p, r, now)), Extended(p.effective, r.id, n))
  {
    TimelineInstalled(p, r, now);
    var tl, was := Timeline(Some(Installed(p, r, now))), Timeline(Some(p));
    assert forall i :: 1 < i < |tl| ==> tl[i] == was[i - 1];
    assert |tl| > 1 ==> tl[1] == was[0].(status := Historical);
  }

  lemma RenewedOrdered(p: Peer, r: Fetched, now: Time, n: nat)
    requires Ordered(Some(p), n) && StandsAt(p.identity, r) && r.manifest.issuedAt > 0 && !Rotates(p, r)
    requires n > 0 ==> NewerOrSame(r, Timeline(Some(p))[0])
    ensures Ordered(Some(Installed(p, r, now)), Extended(p.effective, r.id, n))
  {
    TimelineInstalled(p, r, now);
    var tl, was := Timeline(Some(Installed(p, r, now))), Timeline(Some(p));
    assert forall i :: 0 < i < |tl| ==> tl[i] == was[i];
  }

  /** Installing a response that is newer than the epoch's newest, or the same manifest again,
      keeps the epoch ordered. */
  lemma InstalledOrdered(p: Peer, r: Fetched, now: Time, n: nat)
    requires Ordered(Some(p), n) && StandsAt(p.identity, r) && r.manifest.issuedAt > 0
    requires n > 0 ==> NewerOrSame(r, Timeline(Some(p))[0])
    ensures Ordered(Some(Installed(p, r, now)), Extended(p.effective, r.id, n))
  {
    if Rotates(p, r) { RotatedOrdered(p, r, now, n); } else { RenewedOrdered(p, r, now, n); }
  }

  // --- one response -----------------------------------------------------------------------

  /** The epoch's length after a turn: a followed rotation starts a new one. */
  function EpochLength(s: Slot, t: Slot, event: Event, n: nat): nat {
    match event
    case Nothing => n
    case RotationOnly => 0
    case RotationInstalled => 1
    case Installation =>
      var after := Timeline(t.peer);
      if after == [] then 0
      else Extended(if s.peer.Some? then s.peer.value.effective else None, after[0].id, n)
  }

  function EpochAfter(s: Slot, t: Turn, n: nat): nat { EpochLength(s, t.slot, t.event, n) }

  /** The decision was made on the slot's own identity, or on none at no cost to the watermark. */
  predicate DecidedOn(s: Slot, prev: Option<Peer>, r: Fetched) {
    Snapshot(s, prev) || (prev.None? && Keeps(IdentityOf(s.peer), BlindMark(r)))
  }

  lemma FoldedOrdered(d: Bytes, s: Slot, prev: Option<Peer>, r: Fetched, env: Env, n: nat)
    requires DecidedOn(s, prev, r) && Ordered(s.peer, n) && r.manifest.issuedAt > 0
    ensures var v := DecideFor(prev, r, env.clock(DecisionClock)); var t := Folded(d, s, prev, r, v, env);
      && Ordered(t.peer, n) && Timeline(t.peer) == Timeline(s.peer)
      && Forward(IdentityOf(s.peer), IdentityOf(t.peer))
      && (v.acceptFetched ==> StandsAt(IdentityOf(t.peer), r))
      && (v.acceptFetched && n > 0 ==> NewerOrSame(r, Timeline(s.peer)[0]))
  {
    var st := IdentityOf(prev);
    var usable := Usable(prev, env.clock(DecisionClock)).Some?;
    WatermarkFollowsAcceptance(st, r, st.dnsFingerprint, st.hasDns, usable, env.clock(IdentityClock));
    AcceptedIff(st, r, st.dnsFingerprint, st.hasDns, usable);
  }

  lemma InstallOrdered(d: Bytes, s: Slot, env: Env, r: Fetched, n: nat)
    requires s.peer.Some? && Ordered(s.peer, n) && StandsAt(IdentityOf(s.peer), r) && r.manifest.issuedAt > 0
    requires n > 0 ==> NewerOrSame(r, Timeline(s.peer)[0])
    ensures var t := Install(d, s, env, r);
      && t.event in {Nothing, Installation} && Ordered(t.slot.peer, EpochAfter(s, t, n))
      && IdentityOf(t.slot.peer) == IdentityOf(s.peer)
  {
    InstalledOrdered(s.peer.value, r, env.clock(InstallWrite), n);
  }

  lemma MovedOrdered(s: Slot, d: Bytes, st: IdentityState, r: Fetched, now: Time)
    requires s.peer.Some? && Ordered(s.peer, 0) && StandsAt(st, r) && r.manifest.issuedAt > 0
    ensures var moved := SetIdentitySlot(s, d, st);
      Ordered(moved.peer, 0) && Ordered(InstallSlot(moved, d, r, now).0.peer, if InstallSlot(moved, d, r, now).1 == Stored then 1 else 0)
  {
    var moved := SetIdentitySlot(s, d, st);
    assert Ordered(moved.peer, 0);
    InstalledOrdered(moved.peer.value, r, now, 0);
  }

  /** What a followed rotation leaves: the identity moved, and perhaps the response installed. */
  lemma FollowShape(x: Primitives, d: Bytes, s: Slot, env: Env, route: Bytes, prev: Option<Peer>, r: Fetched)
    returns (st: IdentityState)
    requires s.peer.Some? && r.manifest.issuedAt > 0
    ensures StandsAt(st, r)
    ensures var (t, event) := FollowRotation(x, d, s, env, route, prev, r); var moved := SetIdentitySlot(s, d, st);
      var (after, e) := InstallSlot(moved, d, r, env.clock(RotationInstallWrite));
      match event
      case Nothing => t == s
      case RotationOnly => t == moved || (t == after && e != Stored)
      case RotationInstalled => t == after && e == Stored
      case Installation => false
  {
    var target := RotationTarget(x, d, env, route, prev, r);
    st := if target.Some? then RotatedIdentity(IdentityOf(prev), target.value, r, env.clock(PinClock))
          else NO_IDENTITY.(issuedAt := r.manifest.issuedAt, manifestId := r.id);
  }

  lemma FollowOrdered(x: Primitives, d: Bytes, s: Slot, env: Env, route: Bytes, prev: Option<Peer>, r: Fetched, n: nat)
    requires s.peer.Some? && Ordered(s.peer, n) && r.manifest.issuedAt > 0
    ensures var (t, event) := FollowRotation(x, d, s, env, route, prev, r);
      && t.peer.Some? && event in {Nothing, RotationOnly, RotationInstalled}
      && Ordered(t.peer, EpochAfter(s, Turn(t, Served(r), event), n))
      && (event == Nothing ==> t == s)
  {
    var st := FollowShape(x, d, s, env, route, prev, r);
    MovedOrdered(s, d, st, r, env.clock(RotationInstallWrite));
  }

  lemma FailureKeepsTimeline(s: Slot, d: Bytes, now: Time)
    requires s.peer.Some?
    ensures var t := RecordFailureSlot(s, d, now);
      Timeline(t.peer) == Timeline(s.peer) && IdentityOf(t.peer) == IdentityOf(s.peer)
  {
  }

  lemma RefuseOrdered(
    x: Primitives, d: Bytes, s: Slot, env: Env, route: Bytes, prev: Option<Peer>, r: Fetched, v: Verdict, accept: bool, n: nat)
    requires s.peer.Some? && Ordered(s.peer, n) && r.manifest.issuedAt > 0
    ensures var t := Refuse(x, d, s, env, route, prev, r, v, accept);
      && t.event != Installation && Ordered(t.slot.peer, EpochAfter(s, t, n))
      && (t.event == Nothing ==> IdentityOf(t.slot.peer) == IdentityOf(s.peer))
  {
    FollowOrdered(x, d, s, env, route, prev, r, n);
    var (t, event) := if v.reason == PinnedOtherSigner then FollowRotation(x, d, s, env, route, prev, r) else (s, Nothing);
    FailureKeepsTimeline(t, d, env.clock(RefusalWrite));
  }

  lemma ConcludeOrdered(
    x: Primitives, d: Bytes, s: Slot, env: Env, route: Bytes, prev: Option<Peer>, r: Fetched, accept: bool, n: nat)
    requires DecidedOn(s, prev, r) && Ordered(s.peer, n) && r.manifest.issuedAt > 0
    ensures var t := Conclude(x, d, s, env, route, prev, r, DecideFor(prev, r, env.clock(DecisionClock)), accept);
      && Ordered(t.slot.peer, EpochAfter(s, t, n))
      && (t.event in {Nothing, Installation} ==> Forward(IdentityOf(s.peer), IdentityOf(t.slot.peer)))
      && (t.event == Installation ==> StandsAt(IdentityOf(t.slot.peer), r))
  {
    var v := DecideFor(prev, r, env.clock(DecisionClock));
    if IdentityWrite !in env.faults {
      var trusted := Folded(d, s, prev, r, v, env);
      FoldedOrdered(d, s, prev, r, env, n);
      assert Extended(if trusted.peer.Some? then trusted.peer.value.effective else None, r.id, n)
          == Extended(if s.peer.Some? then s.peer.value.effective else None, r.id, n);
      if v.acceptFetched {
        InstallOrdered(d, trusted, env, r, n);
      } else {
        RefuseOrdered(x, d, trusted, env, route, prev, r, v, accept, n);
      }
    }
  }

  /** One response, whatever fails: unless a failed read costs the watermark, the epoch stays
      ordered, and unless a rotation is followed the watermark only moves forward, to the response
      installed. */
  lemma SettleOrdered(x: Primitives, d: Bytes, s: Slot, env: Env, route: Bytes, r: Fetched, accept: bool, n: nat)
    requires Ordered(s.peer, n) && r.manifest.issuedAt > 0 && !RollsBack(env, IdentityOf(s.peer), r)
    ensures var t := Settle(x, d, s, env, route, r, accept);
      && Ordered(t.slot.peer, EpochAfter(s, t, n))
      && (t.event in {Nothing, Installation} ==> Forward(IdentityOf(s.peer), IdentityOf(t.slot.peer)))
      && (t.event == Installation ==> StandsAt(IdentityOf(t.slot.peer), r))
  {
    if LatchWrite !in env.faults && IdentityWrite !in env.faults {
      ConcludeOrdered(x, d, MarkSlot(s, r.fetchedAt), env, route, PrevOf(s, env), r, accept, n);
    }
  }

  // --- the read whose error is ignored -------------------------------------------------------

  lemma RefuseKeepsMark(
    x: Primitives, d: Bytes, s: Slot, env: Env, route: Bytes, prev: Option<Peer>, r: Fetched, v: Verdict, accept: bool)
    requires s.peer.Some? && v.reason != PinnedOtherSigner
    ensures var t := Refuse(x, d, s, env, route, prev, r, v, accept);
      t.event == Nothing && IdentityOf(t.slot.peer) == IdentityOf(s.peer)
  {
    FailureKeepsTimeline(s, d, env.clock(RefusalWrite));
  }

  lemma BlindVerdict(r: Fetched, env: Env)
    requires r.manifest.issuedAt > 0
    ensures var v := DecideFor(None, r, env.clock(DecisionClock));
      var st := ApplyIdentity(NO_IDENTITY, v, r, env.clock(IdentityClock));
      && v.reason != PinnedOtherSigner && (v.acceptFetched <==> !Lapsed(r))
      && Mark(st.issuedAt, st.manifestId) == BlindMark(r)
  {
    AcceptedIff(NO_IDENTITY, r, [], false, false);
    WatermarkFollowsAcceptance(NO_IDENTITY, r, [], false, false, env.clock(IdentityClock));
  }

  /** What is left when the record could not be read: the response's own watermark, or none. */
  lemma BlindLeavesMark(x: Primitives, d: Bytes, s: Slot, env: Env, route: Bytes, r: Fetched, accept: bool)
    requires Blind(env) && r.manifest.issuedAt > 0
    ensures var t := Settle(x, d, s, env, route, r, accept); var st := IdentityOf(t.slot.peer);
      t.event in {Nothing, Installation} && Mark(st.issuedAt, st.manifestId) == BlindMark(r)
  {
    BlindVerdict(r, env);
    var v := DecideFor(None, r, env.clock(DecisionClock));
    var trusted := Folded(d, MarkSlot(s, r.fetchedAt), None, r, v, env);
    if !v.acceptFetched { RefuseKeepsMark(x, d, trusted, env, route, None, r, v, accept); }
  }

  /** Exactly when a response that follows no rotation leaves the watermark or moves it forward:
      always, except when the read before the decision fails, both trust writes succeed, and the
      response's own watermark is older than the one it overwrites. */
  lemma ForwardIff(x: Primitives, d: Bytes, s: Slot, env: Env, route: Bytes, r: Fetched, accept: bool, n: nat)
    requires Ordered(s.peer, n) && r.manifest.issuedAt > 0
    ensures var t := Settle(x, d, s, env, route, r, accept);
      t.event in {Nothing, Installation} ==>
        (Forward(IdentityOf(s.peer), IdentityOf(t.slot.peer)) <==> !RollsBack(env, IdentityOf(s.peer), r))
  {
    if Blind(env) {
      BlindLeavesMark(x, d, s, env, route, r, accept);
    } else {
      SettleOrdered(x, d, s, env, route, r, accept, n);
    }
  }

  /** The exception is real: with that one read failing, an older response is installed and the
      watermark goes back to it. */
  lemma RollbackOnFailedRead(x: Primitives, d: Bytes, s: Slot, env: Env, route: Bytes, r: Fetched, accept: bool)
    requires env.faults == {DecisionRead} && s.peer.Some? && s.peer.value.policy != Disabled
    requires r.manifest.domain == d && !Lapsed(r) && 0 < r.manifest.issuedAt < s.peer.value.identity.issuedAt
    ensures var t := Settle(x, d, s, env, route, r, accept);
      && t.outcome == Served(r) && t.event == Installation && Timeline(t.slot.peer) != []
      && Timeline(t.slot.peer)[0] == RecordOf(r) && StandsAt(IdentityOf(t.slot.peer), r)
      && !Forward(IdentityOf(s.peer), IdentityOf(t.slot.peer))
  {
    BlindVerdict(r, env);
    BlindLeavesMark(x, d, s, env, route, r, accept);
  }

  /** And a lapsed response, though refused, erases the watermark. */
  lemma WatermarkErasedOnFailedRead(x: Primitives, d: Bytes, s: Slot, env: Env, route: Bytes, r: Fetched, accept: bool)
    requires Blind(env) && Lapsed(r) && r.manifest.issuedAt > 0 && IdentityOf(s.peer).issuedAt > 0
    ensures var t := Settle(x, d, s, env, route, r, accept);
      t.event == Nothing && IdentityOf(t.slot.peer).issuedAt == 0 && !Forward(IdentityOf(s.peer), IdentityOf(t.slot.peer))
  {
    BlindVerdict(r, env);
    BlindLeavesMark(x, d, s, env, route, r, accept);
    var v := DecideFor(None, r, env.clock(DecisionClock));
    RefuseKeepsMark(x, d, Folded(d, MarkSlot(s, r.fetchedAt), None, r, v, env), env, route, None, r, v, accept);
  }

  // --- why calls of a domain are serialized up to the install ----------------------------------

  /** An install that comes late, after a newer response moved the watermark and took the cache,
      puts the older manifest back in front of it under the newer watermark. */
  lemma LateInstallUndercuts(d: Bytes, s: Slot, env: Env, r: Fetched)
    requires s.peer.Some? && s.peer.value.effective.Some? && s.peer.value.policy != Disabled
    requires r.manifest.domain == d && InstallWrite !in env.faults
    requires r.manifest.issuedAt < s.peer.value.effective.value.issuedAt <= s.peer.value.identity.issuedAt
    requires r.id != s.peer.value.effective.value.id
    ensures var t := Install(d, s, env, r); var tl := Timeline(t.slot.peer);
      && t.outcome == Served(r) && IdentityOf(t.slot.peer) == IdentityOf(s.peer)
      && |tl| > 1 && tl[0] == RecordOf(r) && tl[0].issuedAt < tl[1].issuedAt
      && forall n: nat :: Ordered(t.slot.peer, n) ==> n <= 1
  {
    TimelineInstalled(s.peer.value, r, env.clock(InstallWrite));
    var tl := Timeline(Install(d, s, env, r).slot.peer);
    assert tl[1] == s.peer.value.effective.value.(status := Historical);
  }

  // --- over runs ---------------------------------------------------------------------------

  /** What a step's resolution did, if the step has one. */
  function EventOf(x: Primitives, d: Bytes, s: Slot, step: Step): Event {
    match step
    case Deliver(env, accept) => ResolveEncrypting(x, d, s, env, accept).event
    case Background(env, force) => Resolve(x, d, s, env, force, false).event
    case _ => Nothing
  }

  /** The epoch's length after a step: forgetting empties the timeline. */
  function EpochNext(x: Primitives, d: Bytes, s: Slot, step: Step, n: nat): nat {
    if step.Forgetting? then 0 else EpochLength(s, Next(x, d, s, step), EventOf(x, d, s, step), n)
  }

  function EpochRun(x: Primitives, d: Bytes, s: Slot, steps: seq<Step>, n: nat): nat
    decreases |steps|
  {
    if steps == [] then n
    else
      var init := steps[..|steps| - 1];
      EpochNext(x, d, After(x, d, s, init), steps[|steps| - 1], EpochRun(x, d, s, init, n))
  }

  /** The answer is a real manifest (issued after the zero time), and a failed read does not cost
      the watermark. */
  predicate GoodEnv(env: Env, s: Slot) {
    var a := AnswerAt(s, env);
    a.Response? ==> a.res.manifest.issuedAt > 0 && !RollsBack(env, IdentityOf(s.peer), a.res)
  }

  predicate GoodStep(s: Slot, step: Step) {
    match step
    case Deliver(env, _) => GoodEnv(env, s)
    case Background(env, _) => GoodEnv(env, s)
    case _ => true
  }

  predicate GoodRun(x: Primitives, d: Bytes, s: Slot, steps: seq<Step>) {
    forall i :: 0 <= i < |steps| ==> GoodStep(After(x, d, s, steps[..i]), steps[i])
  }

  lemma FetchOrdered(x: Primitives, d: Bytes, s: Slot, env: Env, accept: bool, n: nat)
    requires GoodEnv(env, s) && Ordered(s.peer, n)
    ensures var t := Fetch(x, d, s, env, accept);
      && Ordered(t.slot.peer, EpochAfter(s, t, n))
      && (t.event in {Nothing, Installation} ==> Forward(IdentityOf(s.peer), IdentityOf(t.slot.peer)))
  {
    var route := AuthorityHint(s, env);
    match env.answer(route)
    case Response(r) => SettleOrdered(x, d, s, env, route, r, accept, n);
    case Unreachable(_) =>
      if s.peer.Some? { FailureKeepsTimeline(s, d, env.clock(FailureWrite)); }
  }

  /** A step that drops the record drops its watermark; a followed rotation restarts it. */
  predicate Restarts(x: Primitives, d: Bytes, s: Slot, step: Step) {
    || EventOf(x, d, s, step) in {RotationOnly, RotationInstalled}
    || (step.Forgetting? && s.peer.Some? && s.peer.value.policy == Auto)
  }

  /** The slot moved on with the epoch ordered, and the watermark forward unless a rotation was
      followed. */
  predicate Advances(s: Slot, t: Slot, event: Event, n: nat) {
    && Ordered(t.peer, EpochLength(s, t, event, n))
    && (event in {Nothing, Installation} ==> Forward(IdentityOf(s.peer), IdentityOf(t.peer)))
  }

  lemma StayingAdvances(s: Slot, n: nat)
    requires Ordered(s.peer, n)
    ensures Advances(s, s, Nothing, n)
  {
  }

  lemma FetchAdvances(x: Primitives, d: Bytes, s: Slot, env: Env, accept: bool, n: nat)
    requires GoodEnv(env, s) && Ordered(s.peer, n)
    ensures var t := Fetch(x, d, s, env, accept); Advances(s, t.slot, t.event, n)
  {
    FetchOrdered(x, d, s, env, accept, n);
  }

  lemma ResolveAdvances(x: Primitives, d: Bytes, s: Slot, env: Env, force: bool, accept: bool, n: nat)
    requires GoodEnv(env, s) && Ordered(s.peer, n)
    ensures var t := Resolve(x, d, s, env, force, accept); Advances(s, t.slot, t.event, n)
  {
    StayingAdvances(s, n);
    FetchAdvances(x, d, s, env, accept, n);
    ResolutionIsFetch(x, d, s, env, force, accept);
  }

  lemma DeliveryAdvances(x: Primitives, d: Bytes, s: Slot, env: Env, accept: bool, n: nat)
    requires GoodEnv(env, s) && Ordered(s.peer, n)
    ensures var t := ResolveEncrypting(x, d, s, env, accept); Advances(s, t.slot, t.event, n)
  {
    StayingAdvances(s, n);
    ResolveAdvances(x, d, s, env, false, accept, n);
    DeliveryIsResolution(x, d, s, env, accept);
  }

  /** Sightings, policy changes and downgrades leave the timeline alone. */
  lemma QuietAdvances(x: Primitives, d: Bytes, s: Slot, step: Step, n: nat)
    requires Ordered(s.peer, n) && (step.Sighting? || step.Administer? || step.Downgrade?)
    ensures Advances(s, Next(x, d, s, step), Nothing, n)
  {
  }

  lemma ForgettingOrdered(s: Slot, n: nat)
    requires Ordered(s.peer, n)
    ensures Ordered(ForgetSlot(s).peer, 0)
    ensures !(s.peer.Some? && s.peer.value.policy == Auto) ==> Forward(IdentityOf(s.peer), IdentityOf(ForgetSlot(s).peer))
  {
  }

  /** A step keeps the epoch ordered, and unless it restarts the watermark moves it forward. */
  predicate KeepsOrder(s: Slot, t: Slot, length: nat, restarts: bool) {
    Ordered(t.peer, length) && (!restarts ==> Forward(IdentityOf(s.peer), IdentityOf(t.peer)))
  }

  predicate StepKeepsOrder(x: Primitives, d: Bytes, s: Slot, step: Step, n: nat) {
    KeepsOrder(s, Next(x, d, s, step), EpochNext(x, d, s, step, n), Restarts(x, d, s, step))
  }

  lemma AdvancingKeepsOrder(s: Slot, t: Slot, event: Event, n: nat)
    requires Advances(s, t, event, n)
    ensures KeepsOrder(s, t, EpochLength(s, t, event, n), event in {RotationOnly, RotationInstalled})
  {
  }

  lemma DeliverKeepsOrder(x: Primitives, d: Bytes, s: Slot, env: Env, accept: bool, n: nat)
    requires GoodEnv(env, s) && Ordered(s.peer, n)
    ensures StepKeepsOrder(x, d, s, Deliver(env, accept), n)
  {
    var t, step := ResolveEncrypting(x, d, s, env, accept), Deliver(env, accept);
    DeliveryAdvances(x, d, s, env, accept, n);
    AdvancingKeepsOrder(s, t.slot, t.event, n);
    assert Next(x, d, s, step) == t.slot && EventOf(x, d, s, step) == t.event;
  }

  lemma BackgroundKeepsOrder(x: Primitives, d: Bytes, s: Slot, env: Env, force: bool, n: nat)
    requires GoodEnv(env, s) && Ordered(s.peer, n)
    ensures StepKeepsOrder(x, d, s, Background(env, force), n)
  {
    var t, step := Resolve(x, d, s, env, force, false), Background(env, force);
    ResolveAdvances(x, d, s, env, force, false, n);
    AdvancingKeepsOrder(s, t.slot, t.event, n);
    assert Next(x, d, s, step) == t.slot && EventOf(x, d, s, step) == t.event;
  }

  lemma QuietKeepsOrder(x: Primitives, d: Bytes, s: Slot, step: Step, n: nat)
    requires Ordered(s.peer, n) && !step.Deliver? && !step.Background?
    ensures StepKeepsOrder(x, d, s, step, n)
  {
    if step.Forgetting? {
      ForgettingOrdered(s, n);
    } else {
      QuietAdvances(x, d, s, step, n);
      AdvancingKeepsOrder(s, Next(x, d, s, step), Nothing, n);
    }
  }

  lemma StepOrdered(x: Primitives, d: Bytes, s: Slot, step: Step, n: nat)
    requires GoodStep(s, step) && Ordered(s.peer, n)
    ensures StepKeepsOrder(x, d, s, step, n)
  {
    match step
    case Deliver(env, accept) => DeliverKeepsOrder(x, d, s, env, accept, n);
    case Background(env, force) => BackgroundKeepsOrder(x, d, s, env, force, n);
    case _ => QuietKeepsOrder(x, d, s, step, n);
  }

  lemma GoodPrefix(x: Primitives, d: Bytes, s: Slot, steps: seq<Step>)
    requires GoodRun(x, d, s, steps) && steps != []
    ensures var k := |steps| - 1; GoodRun(x, d, s, steps[..k]) && GoodStep(After(x, d, s, steps[..k]), steps[k])
  {
    var init := steps[..|steps| - 1];
    assert forall i :: 0 <= i < |init| ==> init[i] == steps[i] && init[..i] == steps[..i];
  }

  /** Over every run in which no failed read costs the watermark, the entries installed since the
      last followed rotation are strictly newest first and the watermark is at the newest of them
      or beyond. */
  lemma {:induction false} OrderedOverRun(x: Primitives, d: Bytes, s: Slot, steps: seq<Step>, n: nat)
    requires GoodRun(x, d, s, steps) && Ordered(s.peer, n)
    ensures Ordered(After(x, d, s, steps).peer, EpochRun(x, d, s, steps, n))
    decreases |steps|
  {
    if steps != [] {
      var k := |steps| - 1;
      GoodPrefix(x, d, s, steps);
      OrderedOverRun(x, d, s, steps[..k], n);
      StepOrdered(x, d, After(x, d, s, steps[..k]), steps[k], EpochRun(x, d, s, steps[..k], n));
    }
  }

  /** No step of the run restarts the watermark. */
  predicate Unbroken(x: Primitives, d: Bytes, s: Slot, steps: seq<Step>) {
    forall i :: 0 <= i < |steps| ==> !Restarts(x, d, After(x, d, s, steps[..i]), steps[i])
  }

  lemma StillUnbroken(x: Primitives, d: Bytes, s: Slot, steps: seq<Step>)
    requires Unbroken(x, d, s, steps) && steps != []
    ensures var k := |steps| - 1;
      Unbroken(x, d, s, steps[..k]) && !Restarts(x, d, After(x, d, s, steps[..k]), steps[k])
  {
    var init := steps[..|steps| - 1];
    assert forall i :: 0 <= i < |init| ==> init[i] == steps[i] && init[..i] == steps[..i];
  }

  lemma UnbrokenPrefix(x: Primitives, d: Bytes, s: Slot, steps: seq<Step>)
    requires GoodRun(x, d, s, steps) && Unbroken(x, d, s, steps) && steps != []
    ensures var k := |steps| - 1; var last := After(x, d, s, steps[..k]);
      && GoodRun(x, d, s, steps[..k]) && GoodStep(last, steps[k])
      && Unbroken(x, d, s, steps[..k]) && !Restarts(x, d, last, steps[k])
  {
    GoodPrefix(x, d, s, steps);
    StillUnbroken(x, d, s, steps);
  }

  /** Between followed rotations the watermark never goes back and never changes manifest at one
      instant, whatever mix of refusals, installs, forgetting and faults lies between, so long as
      none of the faults is the failed read that costs it. */
  lemma {:induction false} ForwardOverRun(x: Primitives, d: Bytes, s: Slot, steps: seq<Step>, n: nat)
    requires GoodRun(x, d, s, steps) && Ordered(s.peer, n) && Unbroken(x, d, s, steps)
    ensures Forward(IdentityOf(s.peer), IdentityOf(After(x, d, s, steps).peer))
    decreases |steps|
  {
    if steps != [] {
      var k := |steps| - 1;
      var init := steps[..k];
      UnbrokenPrefix(x, d, s, steps);
      ForwardOverRun(x, d, s, init, n);
      OrderedOverRun(x, d, s, init, n);
      StepOrdered(x, d, After(x, d, s, init), steps[k], EpochRun(x, d, s, init, n));
    }
  }
}
