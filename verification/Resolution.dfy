/** One resolution of one domain (peer/service.go), as a function of the domain's slot in the
    store and of everything the outside world answers during the call: which store calls fail,
    what each reading of the clock says, what the authority serves. */
module Resolution {
  import opened Bytes
  import opened Options
  import opened Clock
  import opened Mailkey
  import opened Manifests
  import opened Identity
  import opened ChainWalk
  import opened ChainCodec
  import opened PeerModel
  import opened MemStores
  import opened Verdicts

  /** The store calls and clock readings of a call, in program order. */
  datatype Site =
    | EntryRead | EntryClock
    | ShortcutRead | ShortcutClock | ShortcutClockAgain
    | HintRead | FailureWrite
    | DecisionRead | DecisionClock
    | LatchWrite | IdentityClock | IdentityWrite
    | WalkClock | PinClock | RotationIdentityWrite | RotationInstallWrite
    | RefusalWrite | RefusalClock
    | InstallWrite
    | PolicyRead

  datatype Answer = Response(res: Fetched) | Unreachable(saysDisabled: bool)

  /** The identity resource: no such resolver, no answer, or bytes. */
  datatype ChainAnswer = NoChain | ChainBytes(raw: Bytes)

  /** The authority's answers may depend on the delegated route asked for (empty: the subject
      domain's own host). */
  datatype Env = Env(faults: set<Site>, clock: Site -> Time, answer: Bytes -> Answer, chain: Bytes -> ChainAnswer)

  /** What an error matches. `Plain` matches no sentinel, and callers read it as "no key". */
  datatype Failure =
    | Plain
    | DisabledError
    | Foreign(saysDisabled: bool)
    | IdentityRefused
    | Required(cause: Failure)

  predicate IsDisabled(e: Failure) {
    match e
    case DisabledError => true
    case Foreign(says) => says
    case Required(cause) => IsDisabled(cause)
    case _ => false
  }

  predicate IsIdentityRefused(e: Failure) {
    e.IdentityRefused? || (e.Required? && IsIdentityRefused(e.cause))
  }

  datatype Outcome = Served(res: Fetched) | Failed(err: Failure)

  /** What a resolution did to the effective manifest. */
  datatype Event = Nothing | Installation | RotationInstalled | RotationOnly

  datatype Turn = Turn(slot: Slot, outcome: Outcome, event: Event)

  // --- the pieces ---------------------------------------------------------------------------

  /** GetPeer: a copy with its derived state current. */
  function ReadPeer(s: Slot, env: Env, site: Site): Result<Option<Peer>> {
    if site in env.faults then Err
    else Ok(if s.peer.None? then None else Some(Reconciled(s.peer.value, env.clock(site))))
  }

  /** resultOf: the stored bytes are parsed again, and nothing else is trusted. */
  function ResultOf(x: Primitives, rec: Record, d: Bytes): Outcome {
    match (if rec.raw == [] then Err else Parsed(x, rec.raw, d))
    case Err => Failed(Plain)
    case Ok(m) => Served(Fetched(m, rec.id, rec.raw, rec.fetchedAt, rec.expiresAt, rec.host, None, []))
  }

  function IdentityOf(p: Option<Peer>): IdentityState {
    if p.None? then NO_IDENTITY else p.value.identity
  }

  /** The authority of the latest observation; an earlier one wins a tie. */
  function Freshest(os: seq<Observation>, newest: Time, hint: Bytes): Bytes {
    if os == [] then hint
    else if os[0].observedAt > newest then Freshest(os[1..], os[0].observedAt, os[0].authority)
    else Freshest(os[1..], newest, hint)
  }

  /** authorityHint: an observed route counts only for a domain with an established pin. */
  function AuthorityHint(s: Slot, env: Env): Bytes {
    var p := ReadPeer(s, env, HintRead).GetOr(None);
    if p.None? || p.value.identity.status != Pinned then []
    else Freshest(p.value.observations, 0, [])
  }

  function DecideFor(p: Option<Peer>, r: Fetched, now: Time): Verdict {
    var st := IdentityOf(p);
    Decide(st, r, st.dnsFingerprint, st.hasDns, Usable(p, now).Some?)
  }

  /** overridable: a proof exists, and the refusal is not a replay. */
  predicate Overridable(reason: Reason, r: Fetched) {
    r.proof.Some? && !IsReplay(reason)
  }

  /** Where the published history leads from the stored pin; None when it settles nothing. */
  function RotationTarget(x: Primitives, d: Bytes, env: Env, route: Bytes, prev: Option<Peer>, r: Fetched): Option<ChainResult> {
    var served := env.chain(route);
    if served.NoChain? || prev.None? || prev.value.identity.publicKey == [] || r.proof.None? then None
    else
      var doc := ParsedDoc(x, d, served.raw);
      if doc.Err? then None
      else
        var st := prev.value.identity;
        var w := Walk(x, st.fingerprint, st.publicKey, doc.value.chain, env.clock(WalkClock));
        if w.error != NoError || w.result.revoked || w.result.applied == 0
           || w.result.fingerprint != r.proof.value.fingerprint then None
        else Some(w.result)
  }

  /** The pin a followed rotation installs; the replay watermark restarts with it. */
  function RotatedIdentity(st: IdentityState, to: ChainResult, r: Fetched, now: Time): IdentityState {
    var moved := st.(status := Pinned, fingerprint := to.fingerprint, publicKey := to.publicKey,
                     pinnedAt := now, contested := false);
    if r.manifest.issuedAt != 0 then moved.(issuedAt := r.manifest.issuedAt, manifestId := r.id) else moved
  }

  /** followRotation: both writes must succeed, and the first stands if the second fails. */
  function FollowRotation(x: Primitives, d: Bytes, s: Slot, env: Env, route: Bytes, prev: Option<Peer>, r: Fetched): (Slot, Event) {
    match RotationTarget(x, d, env, route, prev, r)
    case None => (s, Nothing)
    case Some(to) =>
      if RotationIdentityWrite in env.faults then (s, Nothing)
      else
        var moved := SetIdentitySlot(s, d, RotatedIdentity(IdentityOf(prev), to, r, env.clock(PinClock)));
        if RotationInstallWrite in env.faults then (moved, RotationOnly)
        else
          var (after, e) := InstallSlot(moved, d, r, env.clock(RotationInstallWrite));
          (after, if e == Stored then RotationInstalled else RotationOnly)
  }

  /** What is handed back on a refusal that nothing settled. */
  function RefusalOutcome(x: Primitives, d: Bytes, env: Env, prev: Option<Peer>, r: Fetched, v: Verdict, accept: bool): Outcome {
    if v.encrypt then
      match Usable(prev, env.clock(RefusalClock))
      case Some(rec) => ResultOf(x, rec, d)
      case None => Failed(Required(Plain))
    else if accept && Overridable(v.reason, r) then Served(r)
    else Failed(Required(if Overridable(v.reason, r) then IdentityRefused else Plain))
  }

  function Refuse(
    x: Primitives, d: Bytes, s: Slot, env: Env, route: Bytes, prev: Option<Peer>, r: Fetched, v: Verdict, accept: bool): Turn
  {
    var (t, event) := if v.reason == PinnedOtherSigner then FollowRotation(x, d, s, env, route, prev, r) else (s, Nothing);
    if event == RotationInstalled then Turn(t, Served(r), event)
    else
      var noted := if RefusalWrite in env.faults then t else RecordFailureSlot(t, d, env.clock(RefusalWrite));
      Turn(noted, RefusalOutcome(x, d, env, prev, r, v, accept), event)
  }

  function Install(d: Bytes, s: Slot, env: Env, r: Fetched): Turn {
    if InstallWrite in env.faults then Turn(s, Failed(Plain), Nothing)
    else
      match InstallSlot(s, d, r, env.clock(InstallWrite))
      case (t, Stored) => Turn(t, Served(r), Installation)
      case (t, OtherDomain) => Turn(t, Failed(Plain), Nothing)
      case (t, AdministrativelyDisabled) => Turn(t, Failed(DisabledError), Nothing)
  }

  /** The latch is set: persist the identity, then install or refuse. */
  function Conclude(
    x: Primitives, d: Bytes, s: Slot, env: Env, route: Bytes, prev: Option<Peer>, r: Fetched, v: Verdict, accept: bool): Turn
  {
    if IdentityWrite in env.faults then Turn(s, Failed(Required(Plain)), Nothing)
    else
      var trusted := SetIdentitySlot(s, d, ApplyIdentity(IdentityOf(prev), v, r, env.clock(IdentityClock)));
      if v.acceptFetched then Install(d, trusted, env, r)
      else Refuse(x, d, trusted, env, route, prev, r, v, accept)
  }

  /** A response in hand: decide first, then the latch, then the identity, then the manifest.
      The read before the decision ignores its error: a failed read decides as for an unknown
      domain. */
  function Settle(x: Primitives, d: Bytes, s: Slot, env: Env, route: Bytes, r: Fetched, accept: bool): Turn {
    var prev := ReadPeer(s, env, DecisionRead).GetOr(None);
    var v := DecideFor(prev, r, env.clock(DecisionClock));
    if LatchWrite in env.faults then Turn(s, Failed(Required(Plain)), Nothing)
    else Conclude(x, d, MarkSlot(s, r.fetchedAt), env, route, prev, r, v, accept)
  }

  function Fetch(x: Primitives, d: Bytes, s: Slot, env: Env, accept: bool): Turn {
    var route := AuthorityHint(s, env);
    match env.answer(route)
    case Response(r) => Settle(x, d, s, env, route, r, accept)
    case Unreachable(says) =>
      if FailureWrite in env.faults then Turn(s, Failed(Plain), Nothing)
      else Turn(RecordFailureSlot(s, d, env.clock(FailureWrite)), Failed(Foreign(says)), Nothing)
  }

  /** The cached answer of an unforced resolution, if it has one. */
  function Shortcut(x: Primitives, d: Bytes, s: Slot, env: Env): Option<Outcome> {
    var read := ReadPeer(s, env, ShortcutRead);
    if read.Err? || read.value.None? then None
    else
      var p := read.value;
      if p.value.policy == Disabled then Some(Failed(DisabledError))
      else if NeedsRefresh(p, env.clock(ShortcutClock)) then None
      else match Usable(p, env.clock(ShortcutClockAgain))
        case Some(rec) => Some(ResultOf(x, rec, d))
        case None => None
  }

  /** resolve. */
  function Resolve(x: Primitives, d: Bytes, s: Slot, env: Env, force: bool, accept: bool): Turn {
    match (if force then None else Shortcut(x, d, s, env))
    case Some(cached) => Turn(s, cached, Nothing)
    case None => Fetch(x, d, s, env, accept)
  }

  /** resolveForEncryption: the peer it read (for policy) and the unwrapped outcome. */
  function ResolveUnwrapped(x: Primitives, d: Bytes, s: Slot, env: Env, accept: bool): (Option<Peer>, Turn) {
    match ReadPeer(s, env, EntryRead)
    case Err => (None, Turn(s, Failed(Plain), Nothing))
    case Ok(p) =>
      if p.Some? && p.value.policy == Disabled then (p, Turn(s, Failed(DisabledError), Nothing))
      else
        match Usable(p, env.clock(EntryClock))
        case None => (p, Resolve(x, d, s, env, false, accept))
        case Some(rec) =>
          if !NeedsRefresh(p, env.clock(EntryClock)) then (p, Turn(s, ResultOf(x, rec, p.value.domain), Nothing))
          else
            var t := Resolve(x, d, s, env, false, accept);
            (p, if t.outcome.Served? then t else t.(outcome := ResultOf(x, rec, p.value.domain)))
  }

  /** policyFailure: whether "no usable key" may leave the service unwrapped. */
  function PolicyFailure(s: Slot, env: Env, p: Option<Peer>, cause: Failure): Failure {
    if IsDisabled(cause) then cause
    else if p.Some? && p.value.policy == Require then Required(cause)
    else if PolicyRead in env.faults || s.cap.Requires() then Required(cause)
    else cause
  }

  /** ResolveForEncryption (`accept` false) and ResolveAcceptingUnpinned (`accept` true). */
  function ResolveEncrypting(x: Primitives, d: Bytes, s: Slot, env: Env, accept: bool): Turn {
    var (p, t) := ResolveUnwrapped(x, d, s, env, accept);
    if t.outcome.Served? then t
    else t.(outcome := Failed(PolicyFailure(t.slot, env, p, t.outcome.err)))
  }
}
