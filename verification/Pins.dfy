/** Where a pin can come from and where it can go. */
module Pins {
  import opened Bytes
  import opened Options
  import opened Clock
  import opened Mailkey
  import opened Identity
  import opened Proofs
  import opened ChainWalk
  import opened ChainSoundness
  import opened ChainCodec
  import opened ChainCodecProofs
  import opened Authority
  import opened PeerModel
  import opened MemStores
  import opened Verdicts
  import opened Resolution
  import opened Runs

  datatype Pin = Pin(fp: Bytes, pk: Bytes)

  /** The pinned fingerprint and key of a slot, if it has a pin. */
  function PinOf(s: Slot): Option<Pin> {
    if s.peer.Some? && s.peer.value.identity.status == Pinned
    then Some(Pin(s.peer.value.identity.fingerprint, s.peer.value.identity.publicKey))
    else None
  }

  /** The pin of a valid proof. */
  function PinOfProof(r: Fetched): Option<Pin> {
    if ProofValid(r) then Some(Pin(r.proof.value.fingerprint, r.proof.value.publicKey)) else None
  }

  /** A move of the pin that the history published on a route authorizes: a path of verified
      statements, in force at the time, from the pin in force to the signer of the response. */
  ghost predicate Authorized(x: Primitives, d: Bytes, env: Env, route: Bytes, r: Fetched, from: Pin, to: Pin) {
    exists chain, path ::
      && ServedChain(x, d, env, route) == Some(chain)
      && path != [] && Linked(x, chain, env.clock(WalkClock), from.fp, from.pk, path)
      && EndsAt(chain, from.fp, from.pk, path, to.fp, to.pk) && !LastTerminal(chain, path)
      && r.proof.Some? && r.proof.value.fingerprint == to.fp
  }

  /** The chain of the identity document served on a route. */
  function ServedChain(x: Primitives, d: Bytes, env: Env, route: Bytes): Option<seq<Statement>> {
    match env.chain(route)
    case NoChain => None
    case ChainBytes(raw) =>
      var doc := ParsedDoc(x, d, raw);
      if doc.Ok? then Some(doc.value.chain) else None
  }

  lemma TargetIsAuthorized(x: Primitives, d: Bytes, env: Env, route: Bytes, prev: Option<Peer>, r: Fetched)
    requires RotationTarget(x, d, env, route, prev, r).Some?
    ensures var to := RotationTarget(x, d, env, route, prev, r).value; var st := prev.value.identity;
      Authorized(x, d, env, route, r, Pin(st.fingerprint, st.publicKey), Pin(to.fingerprint, to.publicKey))
  {
    var st, chain := prev.value.identity, ServedChain(x, d, env, route).value;
    var path := WalkSound(x, st.fingerprint, st.publicKey, chain, env.clock(WalkClock));
  }

  /** How one resolution may change the pin of a domain whose record it could read. */
  ghost predicate PinMove(x: Primitives, d: Bytes, s: Slot, t: Turn, env: Env, route: Bytes, r: Fetched) {
    match PinOf(s)
    case None =>
      PinOf(t.slot) == None || PinOf(t.slot) == PinOfProof(r)
    case Some(pin) =>
      || PinOf(t.slot) == Some(pin)
      || (t.event in {RotationInstalled, RotationOnly} && PinOf(t.slot).Some?
          && Authorized(x, d, env, route, r, pin, PinOf(t.slot).value))
  }

  /** The pin a rotation target stands for, if there is one. */
  function TargetPin(x: Primitives, d: Bytes, env: Env, route: Bytes, prev: Option<Peer>, r: Fetched): Option<Pin> {
    var to :- RotationTarget(x, d, env, route, prev, r);
    Some(Pin(to.fingerprint, to.publicKey))
  }

  lemma FollowedPin(x: Primitives, d: Bytes, s: Slot, env: Env, route: Bytes, prev: Option<Peer>, r: Fetched)
    requires s.peer.Some?
    ensures var (t, event) := FollowRotation(x, d, s, env, route, prev, r);
      && event != Installation
      && (event == Nothing ==> t == s)
      && (event != Nothing ==> PinOf(t).Some? && PinOf(t) == TargetPin(x, d, env, route, prev, r))
  {
  }

  lemma FailureKeepsPin(s: Slot, d: Bytes, now: Time)
    ensures PinOf(RecordFailureSlot(s, d, now)) == PinOf(s)
  {
  }

  lemma RefusedPin(
    x: Primitives, d: Bytes, s: Slot, env: Env, route: Bytes, prev: Option<Peer>, r: Fetched, v: Verdict, accept: bool)
    requires s.peer.Some?
    ensures var t := Refuse(x, d, s, env, route, prev, r, v, accept);
      && (t.event == Nothing ==> PinOf(t.slot) == PinOf(s))
      && (t.event != Nothing ==> v.reason == PinnedOtherSigner && t.event in {RotationInstalled, RotationOnly})
      && (t.event != Nothing ==> PinOf(t.slot).Some? && PinOf(t.slot) == TargetPin(x, d, env, route, prev, r))
  {
    FollowedPin(x, d, s, env, route, prev, r);
    FailureKeepsPin(FollowRotation(x, d, s, env, route, prev, r).0, d, env.clock(RefusalWrite));
    FailureKeepsPin(s, d, env.clock(RefusalWrite));
  }

  lemma FoldedPin(d: Bytes, s: Slot, prev: Option<Peer>, r: Fetched, env: Env)
    requires Snapshot(s, prev)
    ensures var t := Folded(d, s, prev, r, DecideFor(prev, r, env.clock(DecisionClock)), env);
      && (PinOf(s).Some? ==> PinOf(t) == PinOf(s))
      && (PinOf(s).None? ==> PinOf(t) == None || PinOf(t) == PinOfProof(r))
  {
    var st := IdentityOf(prev);
    var v := DecideFor(prev, r, env.clock(DecisionClock));
    if StatusOf(st) == Pinned {
      PinStands(st, v, r, env.clock(IdentityClock));
    } else {
      PinBornIff(st, r, st.dnsFingerprint, st.hasDns, Usable(prev, env.clock(DecisionClock)).Some?, env.clock(IdentityClock));
    }
  }

  lemma OtherSignerMeansPinned(prev: Option<Peer>, r: Fetched, now: Time)
    requires DecideFor(prev, r, now).reason == PinnedOtherSigner
    ensures prev.Some? && prev.value.identity.status == Pinned && ProofValid(r)
  {
  }

  lemma InstalledPin(d: Bytes, s: Slot, env: Env, r: Fetched)
    ensures var t := Install(d, s, env, r);
      t.event in {Nothing, Installation} && PinOf(t.slot) == PinOf(s)
  {
  }

  lemma ConcludedPin(x: Primitives, d: Bytes, s: Slot, env: Env, route: Bytes, prev: Option<Peer>, r: Fetched, accept: bool)
    requires Snapshot(s, prev)
    ensures var v := DecideFor(prev, r, env.clock(DecisionClock));
      PinMove(x, d, s, Conclude(x, d, s, env, route, prev, r, v, accept), env, route, r)
  {
    var v := DecideFor(prev, r, env.clock(DecisionClock));
    if IdentityWrite !in env.faults {
      var trusted := Folded(d, s, prev, r, v, env);
      FoldedPin(d, s, prev, r, env);
      if v.acceptFetched {
        InstalledPin(d, trusted, env, r);
      } else {
        RefusedPin(x, d, trusted, env, route, prev, r, v, accept);
        if Refuse(x, d, trusted, env, route, prev, r, v, accept).event != Nothing {
          TargetIsAuthorized(x, d, env, route, prev, r);
          OtherSignerMeansPinned(prev, r, env.clock(DecisionClock));
        }
      }
    }
  }

  /** A response moves the pin of a readable record only along an authorized path. */
  lemma SettledPin(x: Primitives, d: Bytes, s: Slot, env: Env, route: Bytes, r: Fetched, accept: bool)
    requires DecisionRead !in env.faults
    ensures PinMove(x, d, s, Settle(x, d, s, env, route, r, accept), env, route, r)
  {
    if LatchWrite !in env.faults {
      ConcludedPin(x, d, MarkSlot(s, r.fetchedAt), env, route, ReadPeer(s, env, DecisionRead).GetOr(None), r, accept);
    }
  }

  // --- what gets installed -------------------------------------------------------------------

  function EffectiveOf(s: Slot): Option<Record> {
    if s.peer.Some? then s.peer.value.effective else None
  }

  /** A turn changes the effective manifest exactly by installing its response, and then, if the
      domain has a pin, the response carries a valid proof of that pin. */
  predicate InstallsOnlySigned(s: Slot, t: Turn, r: Fetched) {
    if t.event in {Installation, RotationInstalled} then
      && EffectiveOf(t.slot) == Some(RecordOf(r)) && t.outcome == Served(r)
      && (PinOf(t.slot).Some? ==> SignedBy(r, PinOf(t.slot).value.fp))
    else
      EffectiveOf(t.slot) == EffectiveOf(s)
  }

  lemma AcceptedIsSigned(prev: Option<Peer>, r: Fetched, now: Time, at: Time)
    requires DecideFor(prev, r, now).acceptFetched
    ensures var t := ApplyIdentity(IdentityOf(prev), DecideFor(prev, r, now), r, at);
      t.status == Pinned ==> SignedBy(r, t.fingerprint)
  {
    var st := IdentityOf(prev);
    AcceptedIff(st, r, st.dnsFingerprint, st.hasDns, Usable(prev, now).Some?);
    if StatusOf(st) == Pinned {
      PinStands(st, DecideFor(prev, r, now), r, at);
    } else {
      PinBornIff(st, r, st.dnsFingerprint, st.hasDns, Usable(prev, now).Some?, at);
    }
  }

  lemma InstallKeepsRecord(d: Bytes, s: Slot, env: Env, r: Fetched)
    requires s.peer.Some?
    requires PinOf(s).Some? ==> SignedBy(r, PinOf(s).value.fp)
    ensures InstallsOnlySigned(s, Install(d, s, env, r), r)
  {
  }

  lemma FollowKeepsRecord(x: Primitives, d: Bytes, s: Slot, env: Env, route: Bytes, prev: Option<Peer>, r: Fetched)
    requires s.peer.Some? && ProofValid(r)
    ensures var (t, event) := FollowRotation(x, d, s, env, route, prev, r);
      && t.peer.Some? && event != Installation
      && InstallsOnlySigned(s, Turn(t, Served(r), event), r)
  {
  }

  lemma FailureKeepsRecord(s: Slot, d: Bytes, now: Time)
    ensures EffectiveOf(RecordFailureSlot(s, d, now)) == EffectiveOf(s)
  {
  }

  lemma RefuseKeepsRecord(
    x: Primitives, d: Bytes, s: Slot, env: Env, route: Bytes, prev: Option<Peer>, r: Fetched, v: Verdict, accept: bool)
    requires s.peer.Some? && (v.reason == PinnedOtherSigner ==> ProofValid(r))
    ensures InstallsOnlySigned(s, Refuse(x, d, s, env, route, prev, r, v, accept), r)
  {
    if v.reason == PinnedOtherSigner { FollowKeepsRecord(x, d, s, env, route, prev, r); }
    FailureKeepsRecord(FollowRotation(x, d, s, env, route, prev, r).0, d, env.clock(RefusalWrite));
    FailureKeepsRecord(s, d, env.clock(RefusalWrite));
  }

  /** Holds for every response, whatever store calls fail. */
  lemma SettledInstall(x: Primitives, d: Bytes, s: Slot, env: Env, route: Bytes, r: Fetched, accept: bool)
    ensures InstallsOnlySigned(s, Settle(x, d, s, env, route, r, accept), r)
  {
    var prev := ReadPeer(s, env, DecisionRead).GetOr(None);
    var v := DecideFor(prev, r, env.clock(DecisionClock));
    if LatchWrite !in env.faults && IdentityWrite !in env.faults {
      var trusted := Folded(d, MarkSlot(s, r.fetchedAt), prev, r, v, env);
      if v.acceptFetched {
        AcceptedIsSigned(prev, r, env.clock(DecisionClock), env.clock(IdentityClock));
        InstallKeepsRecord(d, trusted, env, r);
      } else {
        if v.reason == PinnedOtherSigner { OtherSignerMeansPinned(prev, r, env.clock(DecisionClock)); }
        RefuseKeepsRecord(x, d, trusted, env, route, prev, r, v, accept);
      }
    }
  }

  // --- the read whose error is ignored --------------------------------------------------------

  /** What a response leaves as the pin when the record could not be read. */
  function BlindPin(r: Fetched): Option<Pin> {
    if Lapsed(r) then None else PinOfProof(r)
  }

  lemma BlindIdentity(r: Fetched, env: Env)
    ensures var v := DecideFor(None, r, env.clock(DecisionClock));
      var t := ApplyIdentity(NO_IDENTITY, v, r, env.clock(IdentityClock));
      && v.reason != PinnedOtherSigner
      && (if t.status == Pinned then BlindPin(r) == Some(Pin(t.fingerprint, t.publicKey)) else BlindPin(r) == None)
  {
    PinBornIff(NO_IDENTITY, r, [], false, false, env.clock(IdentityClock));
  }

  lemma BlindSettle(x: Primitives, d: Bytes, s: Slot, env: Env, route: Bytes, r: Fetched, accept: bool)
    requires Blind(env)
    ensures var t := Settle(x, d, s, env, route, r, accept);
      PinOf(t.slot) == BlindPin(r) && t.event in {Nothing, Installation}
  {
    BlindIdentity(r, env);
    var v := DecideFor(None, r, env.clock(DecisionClock));
    var trusted := Folded(d, MarkSlot(s, r.fetchedAt), None, r, v, env);
    if v.acceptFetched {
      InstalledPin(d, trusted, env, r);
    } else {
      RefusedPin(x, d, trusted, env, route, None, r, v, accept);
    }
  }

  /** The failed read costs the pin: it is overwritten with another, or with none. */
  predicate LosesPin(env: Env, s: Slot, r: Fetched) {
    Blind(env) && BlindPin(r) != PinOf(s)
  }

  /** Exactly when the pin of a pinned domain stays or moves along an authorized path: always,
      except when the read before the decision fails, both trust writes succeed, and the response
      is not one the pin itself signed. */
  lemma PinMoveIff(x: Primitives, d: Bytes, s: Slot, env: Env, route: Bytes, r: Fetched, accept: bool)
    requires PinOf(s).Some?
    ensures PinMove(x, d, s, Settle(x, d, s, env, route, r, accept), env, route, r) <==> !LosesPin(env, s, r)
  {
    if Blind(env) {
      BlindSettle(x, d, s, env, route, r, accept);
    } else if DecisionRead !in env.faults {
      SettledPin(x, d, s, env, route, r, accept);
    }
  }

  /** The exception is real: with that one read failing, a response validly signed by anyone is
      accepted, installed, and its signer becomes the pin. */
  lemma PinReplacedOnFailedRead(x: Primitives, d: Bytes, s: Slot, env: Env, route: Bytes, r: Fetched, accept: bool)
    requires env.faults == {DecisionRead} && s.peer.Some? && s.peer.value.policy != Disabled
    requires ProofValid(r) && !Lapsed(r) && r.manifest.domain == d
    ensures var t := Settle(x, d, s, env, route, r, accept);
      t.outcome == Served(r) && EffectiveOf(t.slot) == Some(RecordOf(r)) && PinOf(t.slot) == PinOfProof(r)
  {
    BlindSettle(x, d, s, env, route, r, accept);
    AcceptedIff(NO_IDENTITY, r, [], false, false);
  }

  // --- why steps of a domain are serialized ----------------------------------------------------

  /** A decision taken on a snapshot from before the domain was pinned writes its own pin over
      whatever another resolution stored meanwhile: the identity is written back whole. */
  lemma StaleDecisionOverwrites(
    x: Primitives, d: Bytes, now: Slot, env: Env, route: Bytes, prev: Option<Peer>, r: Fetched, accept: bool)
    requires StatusOf(IdentityOf(prev)) != Pinned && IdentityWrite !in env.faults
    requires ProofValid(r) && !Lapsed(r) && InOrder(IdentityOf(prev), r)
    requires IdentityOf(prev).hasDns ==> IdentityOf(prev).dnsFingerprint == r.proof.value.fingerprint
    ensures var v := DecideFor(prev, r, env.clock(DecisionClock));
      PinOf(Conclude(x, d, now, env, route, prev, r, v, accept).slot) == PinOfProof(r)
  {
    var st, v := IdentityOf(prev), DecideFor(prev, r, env.clock(DecisionClock));
    var usable := Usable(prev, env.clock(DecisionClock)).Some?;
    AcceptedIff(st, r, st.dnsFingerprint, st.hasDns, usable);
    PinBornIff(st, r, st.dnsFingerprint, st.hasDns, usable, env.clock(IdentityClock));
    InstalledPin(d, Folded(d, now, prev, r, v, env), env, r);
  }

  // --- over runs -----------------------------------------------------------------------------

  /** No failed read of the step's resolution, if it has one, costs the pin. */
  predicate KeepsPin(s: Slot, step: Step) {
    match step
    case Deliver(env, _) => AnswerAt(s, env).Response? ==> !LosesPin(env, s, AnswerAt(s, env).res)
    case Background(env, _) => AnswerAt(s, env).Response? ==> !LosesPin(env, s, AnswerAt(s, env).res)
    case _ => true
  }

  /** Deleting the record of an automatic peer deletes its pin. */
  predicate DropsPin(s: Slot, step: Step) {
    step.Forgetting? && s.peer.Some? && s.peer.value.policy == Auto
  }

  /** The move is to the signer of the response of this call, by the history served on the same
      route. */
  ghost predicate AnswerAuthorizes(x: Primitives, d: Bytes, s: Slot, env: Env, from: Pin, to: Pin) {
    AnswerAt(s, env).Response? && Authorized(x, d, env, AuthorityHint(s, env), AnswerAt(s, env).res, from, to)
  }

  ghost predicate StepAuthorizes(x: Primitives, d: Bytes, s: Slot, step: Step, from: Pin, to: Pin) {
    match step
    case Deliver(env, _) => AnswerAuthorizes(x, d, s, env, from, to)
    case Background(env, _) => AnswerAuthorizes(x, d, s, env, from, to)
    case _ => false
  }

  lemma FetchedPin(x: Primitives, d: Bytes, s: Slot, env: Env, accept: bool)
    requires PinOf(s).Some? && (AnswerAt(s, env).Response? ==> !LosesPin(env, s, AnswerAt(s, env).res))
    ensures var t := Fetch(x, d, s, env, accept).slot;
      PinOf(t) == PinOf(s) || (PinOf(t).Some? && AnswerAuthorizes(x, d, s, env, PinOf(s).value, PinOf(t).value))
  {
    if AnswerAt(s, env).Response? {
      PinMoveIff(x, d, s, env, AuthorityHint(s, env), AnswerAt(s, env).res, accept);
    }
  }

  /** The step leaves the pin or moves it by an authorized move. */
  ghost predicate PinStep(x: Primitives, d: Bytes, s: Slot, step: Step, t: Slot)
    requires PinOf(s).Some?
  {
    PinOf(t) == PinOf(s) || (PinOf(t).Some? && StepAuthorizes(x, d, s, step, PinOf(s).value, PinOf(t).value))
  }

  lemma StepPin(x: Primitives, d: Bytes, s: Slot, step: Step)
    requires PinOf(s).Some? && KeepsPin(s, step) && !DropsPin(s, step)
    ensures PinStep(x, d, s, step, Next(x, d, s, step))
  {
    match step
    case Deliver(env, accept) =>
      FetchedPin(x, d, s, env, accept);
      DeliveryIsResolution(x, d, s, env, accept);
      ResolutionIsFetch(x, d, s, env, false, accept);
    case Background(env, force) =>
      FetchedPin(x, d, s, env, false);
      ResolutionIsFetch(x, d, s, env, force, false);
    case _ =>
  }

  /** The steps carry `from` to `to` by authorized moves and nothing else. */
  ghost predicate Trail(x: Primitives, d: Bytes, s: Slot, steps: seq<Step>, from: Pin, to: Pin)
    decreases |steps|
  {
    if steps == [] then from == to
    else
      var init, last := steps[..|steps| - 1], steps[|steps| - 1];
      Trail(x, d, s, init, from, to)
      || exists mid :: Trail(x, d, s, init, from, mid) && StepAuthorizes(x, d, After(x, d, s, init), last, mid, to)
  }

  predicate NeverDropped(x: Primitives, d: Bytes, s: Slot, steps: seq<Step>) {
    forall i :: 0 <= i < |steps| ==>
      var before := After(x, d, s, steps[..i]); KeepsPin(before, steps[i]) && !DropsPin(before, steps[i])
  }

  lemma NeverDroppedPrefix(x: Primitives, d: Bytes, s: Slot, steps: seq<Step>)
    requires NeverDropped(x, d, s, steps) && steps != []
    ensures var k := |steps| - 1; var before := After(x, d, s, steps[..k]);
      NeverDropped(x, d, s, steps[..k]) && KeepsPin(before, steps[k]) && !DropsPin(before, steps[k])
  {
    var init := steps[..|steps| - 1];
    assert forall i :: 0 <= i < |init| ==> init[i] == steps[i] && init[..i] == steps[..i];
  }

  lemma TrailStep(x: Primitives, d: Bytes, s: Slot, steps: seq<Step>, from: Pin)
    requires steps != []
    requires var init := steps[..|steps| - 1]; var before := After(x, d, s, init);
      && PinOf(before).Some? && Trail(x, d, s, init, from, PinOf(before).value)
      && PinStep(x, d, before, steps[|steps| - 1], After(x, d, s, steps))
    ensures var t := After(x, d, s, steps); PinOf(t).Some? && Trail(x, d, s, steps, from, PinOf(t).value)
  {
  }

  /** Over a whole run in which no failed read costs it, a pin is never lost, and moves only step
      by authorized step. */
  lemma {:induction false} PinOverRun(x: Primitives, d: Bytes, s: Slot, steps: seq<Step>)
    requires PinOf(s).Some? && NeverDropped(x, d, s, steps)
    ensures var t := After(x, d, s, steps);
      PinOf(t).Some? && Trail(x, d, s, steps, PinOf(s).value, PinOf(t).value)
    decreases |steps|
  {
    if steps != [] {
      var n := |steps| - 1;
      NeverDroppedPrefix(x, d, s, steps);
      PinOverRun(x, d, s, steps[..n]);
      StepPin(x, d, After(x, d, s, steps[..n]), steps[n]);
      TrailStep(x, d, s, steps, PinOf(s).value);
    }
  }

  // --- the pinned key ------------------------------------------------------------------------

  /** A stored key is the one the stored fingerprint was computed from. */
  predicate PinSound(x: Primitives, d: Bytes, pin: Option<Pin>) {
    pin.Some? && pin.value.pk != [] ==> FingerprintOf(x, d, pin.value.pk) == Ok(pin.value.fp)
  }

  /** The chain served in the call does not confuse SHA-256 about the domain of its entries. */
  ghost predicate ChainApart(x: Primitives, d: Bytes, env: Env, route: Bytes, pk: Bytes) {
    && x.normalize(d).Ok?
    && var chain := ServedChain(x, d, env, route); chain.Some? ==> DomainsApart(x, x.normalize(d).value, pk, chain.value)
  }

  lemma AuthorizedPinSound(x: Primitives, d: Bytes, env: Env, route: Bytes, r: Fetched, from: Pin, to: Pin)
    requires Sound(x) && Authorized(x, d, env, route, r, from, to)
    requires FingerprintOf(x, d, from.pk) == Ok(from.fp) && ChainApart(x, d, env, route, from.pk)
    ensures FingerprintOf(x, d, to.pk) == Ok(to.fp)
  {
    var chain, path :|
      && ServedChain(x, d, env, route) == Some(chain)
      && path != [] && Linked(x, chain, env.clock(WalkClock), from.fp, from.pk, path)
      && EndsAt(chain, from.fp, from.pk, path, to.fp, to.pk) && !LastTerminal(chain, path)
      && r.proof.Some? && r.proof.value.fingerprint == to.fp;
    LinkedSameDomain(x, chain, env.clock(WalkClock), d, from.pk, from.fp, from.pk, path);
  }

  /** A pin stored without its key cannot be moved by any chain. */
  lemma AuthorizedNeedsKey(x: Primitives, d: Bytes, env: Env, route: Bytes, r: Fetched, from: Pin, to: Pin)
    requires Authorized(x, d, env, route, r, from, to)
    ensures |from.pk| == PUBLIC_KEY_LENGTH
  {
  }

  lemma UnsettledPin(x: Primitives, d: Bytes, s: Slot, env: Env, route: Bytes, r: Fetched, accept: bool)
    requires LatchWrite in env.faults || IdentityWrite in env.faults
    ensures PinOf(Settle(x, d, s, env, route, r, accept).slot) == PinOf(s)
  {
  }

  /** Fingerprint and key stay a pair, through pinning, every followed rotation, and a failed read
      too: the next walk always starts from a key that really produces the pin. */
  lemma PinKeyStaysSound(x: Primitives, d: Bytes, s: Slot, env: Env, route: Bytes, r: Fetched, accept: bool)
    requires Sound(x) && Vouched(x, d, r) && PinSound(x, d, PinOf(s))
    requires PinOf(s).Some? && PinOf(s).value.pk != [] ==> ChainApart(x, d, env, route, PinOf(s).value.pk)
    ensures PinSound(x, d, PinOf(Settle(x, d, s, env, route, r, accept).slot))
  {
    var t := Settle(x, d, s, env, route, r, accept);
    if LatchWrite in env.faults || IdentityWrite in env.faults {
      UnsettledPin(x, d, s, env, route, r, accept);
    } else if DecisionRead in env.faults {
      BlindSettle(x, d, s, env, route, r, accept);
    } else {
      SettledPin(x, d, s, env, route, r, accept);
      if PinOf(s).Some? && PinOf(t.slot) != PinOf(s) {
        AuthorizedNeedsKey(x, d, env, route, r, PinOf(s).value, PinOf(t.slot).value);
        AuthorizedPinSound(x, d, env, route, r, PinOf(s).value, PinOf(t.slot).value);
      }
    }
  }

  // --- where the first contact goes ------------------------------------------------------------

  /** The first among the latest. */
  predicate Latest(os: seq<Observation>, i: int, after: Time) {
    && 0 <= i < |os| && os[i].observedAt > after
    && (forall j :: 0 <= j < |os| ==> os[j].observedAt <= os[i].observedAt)
    && (forall j :: 0 <= j < i ==> os[j].observedAt < os[i].observedAt)
  }

  lemma LatestOfRest(os: seq<Observation>, i: int, after: Time)
    requires os != [] && Latest(os[1..], i, if os[0].observedAt > after then os[0].observedAt else after)
    ensures Latest(os, i + 1, after) && os[1..][i] == os[i + 1]
  {
    assert forall j :: 0 < j < |os| ==> os[j] == os[1..][j - 1];
  }

  lemma {:induction false} FreshestIsLatest(os: seq<Observation>, newest: Time, hint: Bytes) returns (i: int)
    ensures i < 0 ==> Freshest(os, newest, hint) == hint && forall j :: 0 <= j < |os| ==> os[j].observedAt <= newest
    ensures i >= 0 ==> Latest(os, i, newest) && Freshest(os, newest, hint) == os[i].authority
  {
    if os == [] { return -1; }
    var newer := os[0].observedAt > newest;
    var k := FreshestIsLatest(os[1..], if newer then os[0].observedAt else newest, if newer then os[0].authority else hint);
    if k >= 0 {
      LatestOfRest(os, k, newest);
      return k + 1;
    }
    assert forall j :: 0 < j < |os| ==> os[j] == os[1..][j - 1];
    return if newer then 0 else -1;
  }

  /** A delegated route is only ever taken for a pinned domain, and is the one its latest sighting
      named: nothing a stranger sends can steer a first contact. */
  lemma RouteIsLatestAndPinned(s: Slot, env: Env)
    requires AuthorityHint(s, env) != []
    ensures PinOf(s).Some?
    ensures exists i :: Latest(s.peer.value.observations, i, 0) && s.peer.value.observations[i].authority == AuthorityHint(s, env)
  {
    var p := ReadPeer(s, env, HintRead).value.value;
    var os := s.peer.value.observations;
    var i := FreshestIsLatest(p.observations, 0, []);
    assert forall j :: 0 <= j < |os| ==> p.observations[j].observedAt == os[j].observedAt && p.observations[j].authority == os[j].authority;
    assert Latest(os, i, 0);
  }
}
