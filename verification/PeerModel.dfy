/** One peer record per domain, and how it moves between states (peer/state.go). A `Peer` is the
    value a store hands out; `PeerRecord` below is the object it keeps and mutates in place. */
module PeerModel {
  import opened Bytes
  import opened Options
  import opened Clock
  import opened Mailkey

  const HISTORY_LIMIT := 8
  const REFRESH_BEFORE := 6 * HOUR
  const INSTABILITY_WINDOW := HOUR

  /** `Unset` is the empty policy SetIdentity leaves on a record it creates. */
  datatype Policy = Unset | Auto | Require | Disabled

  datatype State = NoState | Discovered | Active | Expired | Unavailable | DisabledState

  datatype IdentityStatus = Blank | Unpinned | Pinned | Contested

  datatype Source = Dns | MailHeader | Manual

  datatype ObservationStatus = NoStatus | Pending | Confirmed | Stale | Malformed | Inconsistent

  datatype Observation = Observation(
    source: Source, manifestId: Bytes, hasId: bool, fingerprint: Bytes, hasFp: bool,
    authority: Bytes, observedAt: Time, status: ObservationStatus)

  datatype RecordStatus = Effective | Historical

  datatype Record = Record(
    id: Bytes, raw: Bytes, kid: Bytes, issuedAt: Time, expiresAt: Time, fetchedAt: Time,
    host: Bytes, status: RecordStatus)

  /** The sender's trust in a domain. `issuedAt` and `manifestId` are the replay watermark;
      `contested` says a note is kept for an operator. */
  datatype IdentityState = IdentityState(
    status: IdentityStatus, fingerprint: Bytes, publicKey: Bytes, pinnedAt: Time, everValidated: bool,
    dnsFingerprint: Bytes, hasDns: bool, dnsObservedAt: Time,
    issuedAt: Time, manifestId: Bytes, contested: bool)

  const NO_IDENTITY := IdentityState(Blank, [], [], 0, false, [], false, 0, 0, [], false)

  /** `failed` says a last error is recorded. */
  datatype Peer = Peer(
    domain: Bytes, state: State, policy: Policy, effective: Option<Record>, history: seq<Record>,
    observations: seq<Observation>, verifiedAt: Time, refreshAt: Time, failed: bool, unstable: bool,
    identity: IdentityState)

  function NewPeer(domain: Bytes): Peer {
    Peer(domain, Discovered, Auto, None, [], [], 0, 0, false, false, NO_IDENTITY)
  }

  // --- reading -------------------------------------------------------------------------

  function Classify(effective: Option<Record>, o: Observation): ObservationStatus {
    if o.status == Malformed || o.status == Inconsistent then o.status
    else if !o.hasId || effective.None? then Pending
    else if effective.value.id == o.manifestId then Confirmed
    else Stale
  }

  function Usable(p: Option<Peer>, now: Time): Option<Record> {
    if p.None? || p.value.effective.None? || p.value.policy == Disabled then None
    else if p.value.effective.value.expiresAt <= now then None
    else p.value.effective
  }

  /** Nothing cached, expiry near or past, or an observation naming another manifest. */
  predicate NeedsRefresh(p: Option<Peer>, now: Time) {
    p.None? || (p.value.policy != Disabled &&
      (p.value.effective.None?
       || p.value.effective.value.expiresAt <= now
       || (p.value.refreshAt != 0 && p.value.refreshAt <= now)
       || exists i :: 0 <= i < |p.value.observations| && p.value.observations[i].hasId
            && p.value.observations[i].manifestId != p.value.effective.value.id))
  }

  /** Half a duration, rounded toward zero as Go divides. */
  function Half(d: int): int { if d >= 0 then d / 2 else -(-d / 2) }

  function RefreshAt(r: Fetched): Time {
    var expiry := if r.expiresAt == 0 then r.manifest.expiresAt else r.expiresAt;
    var at := expiry - REFRESH_BEFORE;
    if at < r.fetchedAt then r.fetchedAt + Half(expiry - r.fetchedAt) else at
  }

  predicate RotatedBack(history: seq<Record>, id: Bytes) {
    exists i :: 0 <= i < |history| && history[i].id == id
  }

  // --- the transitions, as functions -----------------------------------------------------

  function Reclassified(effective: Option<Record>, os: seq<Observation>): (r: seq<Observation>)
    ensures |r| == |os| && forall i :: 0 <= i < |r| ==> r[i] == os[i].(status := Classify(effective, os[i]))
  {
    seq(|os|, i requires 0 <= i < |os| => os[i].(status := Classify(effective, os[i])))
  }

  function DerivedState(p: Peer, now: Time): State {
    if p.policy == Disabled then DisabledState
    else if p.effective.None? then (if p.failed then Unavailable else Discovered)
    else if p.effective.value.expiresAt <= now then Expired
    else Active
  }

  function Reconciled(p: Peer, now: Time): Peer {
    p.(observations := Reclassified(p.effective, p.observations), state := DerivedState(p, now))
  }

  function RecordOf(r: Fetched): Record {
    Record(r.id, r.raw, r.manifest.key.kid, r.manifest.issuedAt, r.manifest.expiresAt, r.fetchedAt, r.host, Effective)
  }

  function Recent(h: seq<Record>): seq<Record> {
    if |h| > HISTORY_LIMIT then h[..HISTORY_LIMIT] else h
  }

  /** A different manifest demotes the effective one; the same one only refreshes it. */
  function Rotates(p: Peer, r: Fetched): bool {
    p.effective.Some? && p.effective.value.id != r.id
  }

  function DemotedFor(p: Peer, r: Fetched): Peer {
    if !Rotates(p, r) then p
    else
      var prev := p.effective.value;
      p.(unstable := p.unstable
           || (prev.fetchedAt != 0 && r.fetchedAt - prev.fetchedAt < INSTABILITY_WINDOW && RotatedBack(p.history, r.id)),
         history := Recent([prev.(status := Historical)] + p.history))
  }

  function Installed(p: Peer, r: Fetched, now: Time): Peer {
    Reconciled(DemotedFor(p, r).(
      effective := Some(RecordOf(r)), verifiedAt := r.fetchedAt, failed := false, refreshAt := RefreshAt(r),
      state := if p.policy != Disabled then Active else p.state), now)
  }

  /** One observation per source: the newest replaces the one before it. */
  function Coalesced(os: seq<Observation>, o: Observation): seq<Observation> {
    if os == [] then [o]
    else if os[0].source == o.source then [o] + os[1..]
    else [os[0]] + Coalesced(os[1..], o)
  }

  function DnsObserved(st: IdentityState, o: Observation): IdentityState {
    if o.source == Dns && o.hasFp && (st.dnsObservedAt == 0 || o.observedAt >= st.dnsObservedAt)
    then st.(dnsFingerprint := o.fingerprint, hasDns := true, dnsObservedAt := o.observedAt)
    else st
  }

  function Observed(p: Peer, seen: Observation, now: Time): Peer {
    var dated := if seen.observedAt == 0 then seen.(observedAt := now) else seen;
    var o := dated.(status := Classify(p.effective, dated));
    p.(identity := DnsObserved(p.identity, o), observations := Coalesced(p.observations, o),
       state := if p.state == NoState then Discovered else p.state)
  }

  function FailedResolution(p: Peer, now: Time): Peer {
    Reconciled(p.(failed := true), now)
  }

  function Forgotten(p: Peer): Peer {
    p.(effective := None, history := [], observations := [], verifiedAt := 0, refreshAt := 0, failed := false,
       unstable := false, state := if p.policy == Disabled then DisabledState else Discovered)
  }

  /** A sighting of another source is passed over. */
  lemma PassedOver(os: seq<Observation>, i: nat, o: Observation)
    requires i < |os| && os[i].source != o.source
    ensures os[..i] + Coalesced(os[i..], o) == os[..i + 1] + Coalesced(os[i + 1..], o)
  {
    var rest := Coalesced(os[i + 1..], o);
    assert os[i..][0] == os[i] && os[i..][1..] == os[i + 1..];
    assert os[..i + 1] == os[..i] + [os[i]];
    assert os[..i] + ([os[i]] + rest) == os[..i] + [os[i]] + rest;
  }

  // --- the object a store keeps ------------------------------------------------------------

  class PeerRecord {
    var domain: Bytes
    var state: State
    var policy: Policy
    var effective: Option<Record>
    var history: seq<Record>
    var observations: seq<Observation>
    var verifiedAt: Time
    var refreshAt: Time
    var failed: bool
    var unstable: bool
    var identity: IdentityState

    /** The record as a value: what a copy of it says. */
    function View(): Peer
      reads this
    {
      Peer(domain, state, policy, effective, history, observations, verifiedAt, refreshAt, failed, unstable, identity)
    }

    constructor (p: Peer)
      ensures View() == p
    {
      domain, state, policy, effective := p.domain, p.state, p.policy, p.effective;
      history, observations := p.history, p.observations;
      verifiedAt, refreshAt, failed, unstable, identity := p.verifiedAt, p.refreshAt, p.failed, p.unstable, p.identity;
    }

    method Reconcile(now: Time)
      modifies this
      ensures View() == Reconciled(old(View()), now)
    {
      ghost var before := observations;
      for i := 0 to |observations|
        invariant unchanged(`domain) && unchanged(`state) && unchanged(`policy) && unchanged(`effective)
        invariant unchanged(`history) && unchanged(`verifiedAt) && unchanged(`refreshAt) && unchanged(`failed)
        invariant unchanged(`unstable) && unchanged(`identity)
        invariant |observations| == |before|
        invariant forall j :: 0 <= j < i ==> observations[j] == before[j].(status := Classify(effective, before[j]))
        invariant forall j :: i <= j < |before| ==> observations[j] == before[j]
      {
        observations := observations[i := observations[i].(status := Classify(effective, observations[i]))];
      }
      assert observations == Reclassified(effective, before);
      if policy == Disabled {
        state := DisabledState;
      } else if effective.None? && failed {
        state := Unavailable;
      } else if effective.None? {
        state := Discovered;
      } else if effective.value.expiresAt <= now {
        state := Expired;
      } else {
        state := Active;
      }
    }

    method HasRotatedBack(id: Bytes) returns (b: bool)
      ensures b <==> RotatedBack(history, id)
    {
      for i := 0 to |history|
        invariant forall j :: 0 <= j < i ==> history[j].id != id
      {
        if history[i].id == id {
          return true;
        }
      }
      return false;
    }

    /** Demotes the effective manifest when another one replaces it. */
    method Demote(r: Fetched)
      modifies this
      ensures View() == DemotedFor(old(View()), r)
    {
      if effective.Some? && effective.value.id != r.id {
        var prev := effective.value;
        var back := HasRotatedBack(r.id);
        if prev.fetchedAt != 0 && r.fetchedAt - prev.fetchedAt < INSTABILITY_WINDOW && back {
          unstable := true;
        }
        history := [prev.(status := Historical)] + history;
        if |history| > HISTORY_LIMIT {
          history := history[..HISTORY_LIMIT];
        }
      }
    }

    method Install(r: Fetched, now: Time)
      modifies this
      ensures View() == Installed(old(View()), r, now)
    {
      Demote(r);
      effective := Some(RecordOf(r));
      verifiedAt := r.fetchedAt;
      failed := false;
      refreshAt := RefreshAt(r);
      if policy != Disabled {
        state := Active;
      }
      Reconcile(now);
    }

    /** The scan for an observation of the same source. */
    static method Coalesce(os: seq<Observation>, o: Observation) returns (r: seq<Observation>)
      ensures r == Coalesced(os, o)
    {
      var i := 0;
      while i < |os| && os[i].source != o.source
        invariant 0 <= i <= |os|
        invariant Coalesced(os, o) == os[..i] + Coalesced(os[i..], o)
      {
        PassedOver(os, i, o);
        i := i + 1;
      }
      if i < |os| {
        assert os[i := o] == os[..i] + ([o] + os[i..][1..]);
        return os[i := o];
      }
      assert os[..i] == os;
      return os + [o];
    }

    method Observe(seen: Observation, now: Time)
      modifies this
      ensures View() == Observed(old(View()), seen, now)
    {
      var o := seen;
      if o.observedAt == 0 {
        o := o.(observedAt := now);
      }
      o := o.(status := Classify(effective, o));
      if o.source == Dns && o.hasFp && (identity.dnsObservedAt == 0 || o.observedAt >= identity.dnsObservedAt) {
        identity := identity.(dnsFingerprint := o.fingerprint, hasDns := true, dnsObservedAt := o.observedAt);
      }
      observations := Coalesce(observations, o);
      if state == NoState {
        state := Discovered;
      }
    }

    method Fail(now: Time)
      modifies this
      ensures View() == FailedResolution(old(View()), now)
    {
      failed := true;
      Reconcile(now);
    }

    method SetPolicy(policy: Policy, now: Time)
      modifies this
      ensures View() == Reconciled(old(View()).(policy := policy), now)
    {
      this.policy := policy;
      Reconcile(now);
    }

    method Forget()
      modifies this
      ensures View() == Forgotten(old(View()))
    {
      effective, history, observations := None, [], [];
      verifiedAt, refreshAt, failed, unstable := 0, 0, false, false;
      state := if policy == Disabled then DisabledState else Discovered;
    }
  }

  // --- what the transitions keep ---------------------------------------------------------

  predicate OnePerSource(os: seq<Observation>) {
    forall i, j :: 0 <= i < j < |os| ==> os[i].source != os[j].source
  }

  function Sources(os: seq<Observation>): set<Source> {
    if os == [] then {} else {os[0].source} + Sources(os[1..])
  }

  lemma {:induction false} InSources(os: seq<Observation>, i: nat)
    requires i < |os|
    ensures os[i].source in Sources(os)
  {
    if i > 0 { InSources(os[1..], i - 1); }
  }

  lemma {:induction false} CoalescedSources(os: seq<Observation>, o: Observation)
    ensures Sources(Coalesced(os, o)) == Sources(os) + {o.source}
  {
    if os != [] {
      var c := Coalesced(os, o);
      if os[0].source == o.source {
        assert c[1..] == os[1..];
      } else {
        CoalescedSources(os[1..], o);
        assert c[1..] == Coalesced(os[1..], o);
      }
    }
  }

  lemma {:induction false} NotAmongSources(os: seq<Observation>, s: Source)
    requires OnePerSource(os) && os != [] && os[0].source == s
    ensures s !in Sources(os[1..])
  {
    SourcesOnly(os[1..], s);
  }

  lemma {:induction false} SourcesOnly(os: seq<Observation>, s: Source)
    requires forall i :: 0 <= i < |os| ==> os[i].source != s
    ensures s !in Sources(os)
  {
    if os != [] {
      assert os[0].source != s;
      assert forall i :: 0 <= i < |os[1..]| ==> os[1..][i] == os[i + 1];
      SourcesOnly(os[1..], s);
    }
  }

  lemma {:induction false} AtMostThree(os: seq<Observation>)
    requires OnePerSource(os)
    ensures |os| == |Sources(os)| <= 3
  {
    if os != [] {
      NotAmongSources(os, os[0].source);
      assert forall i :: 0 <= i < |os[1..]| ==> os[1..][i] == os[i + 1];
      AtMostThree(os[1..]);
    }
    var all := {Dns, MailHeader, Manual};
    forall s | s in Sources(os) ensures s in all { match s case Dns => case MailHeader => case Manual => }
    assert |all - Sources(os)| == |all| - |Sources(os)|;
  }

  lemma {:induction false} CoalescedUnique(os: seq<Observation>, o: Observation)
    requires OnePerSource(os)
    ensures OnePerSource(Coalesced(os, o)) && o in Coalesced(os, o)
  {
    var c := Coalesced(os, o);
    if os == [] || os[0].source == o.source {
      assert c[0] == o;
      assert forall i :: 0 < i < |c| ==> c[i] == os[i];
    } else {
      var t := Coalesced(os[1..], o);
      assert forall i :: 0 <= i < |os[1..]| ==> os[1..][i] == os[i + 1];
      CoalescedUnique(os[1..], o);
      CoalescedSources(os[1..], o);
      NotAmongSources(os, os[0].source);
      forall i | 0 <= i < |t| ensures t[i].source != os[0].source { InSources(t, i); }
      assert forall i :: 0 < i < |c| ==> c[i] == t[i - 1];
      assert c[1..] == t;
    }
  }

  /** A flood of sightings never grows the record: one per source is kept, so at most three, and
      the sighting just made is among them. */
  lemma ObservationsBounded(p: Peer, seen: Observation, now: Time)
    requires OnePerSource(p.observations)
    ensures var q := Observed(p, seen, now);
      && OnePerSource(q.observations) && |q.observations| <= 3
      && exists i :: 0 <= i < |q.observations| && q.observations[i].source == seen.source
           && q.observations[i].manifestId == seen.manifestId
  {
    var dated := if seen.observedAt == 0 then seen.(observedAt := now) else seen;
    var o := dated.(status := Classify(p.effective, dated));
    CoalescedUnique(p.observations, o);
    AtMostThree(Coalesced(p.observations, o));
  }

  /** A sighting replaces the one of its own source and no other. */
  lemma {:induction false} CoalescedKeepsOthers(os: seq<Observation>, o: Observation, other: Observation)
    requires OnePerSource(os)
    ensures other in Coalesced(os, o) <==> other == o || (other in os && other.source != o.source)
  {
    if os != [] {
      var c, t := Coalesced(os, o), os[1..];
      assert forall i :: 0 <= i < |t| ==> t[i] == os[i + 1];
      assert os == [os[0]] + t;
      if os[0].source == o.source {
        assert c == [o] + t;
      } else {
        CoalescedKeepsOthers(t, o, other);
      }
    }
  }

  /** A cached manifest falls due for refresh while it lives: six hours before its bound, or half
      way there when it lives less than that. */
  lemma RefreshInLife(r: Fetched)
    requires r.expiresAt == 0 || r.expiresAt <= r.manifest.expiresAt
    ensures var bound := if r.expiresAt == 0 then r.manifest.expiresAt else r.expiresAt;
      && (r.fetchedAt <= bound ==> r.fetchedAt <= RefreshAt(r) <= bound)
      && (r.fetchedAt < bound ==> RefreshAt(r) < bound)
      && (bound - r.fetchedAt >= REFRESH_BEFORE <==> RefreshAt(r) == bound - REFRESH_BEFORE)
  {
    var bound := if r.expiresAt == 0 then r.manifest.expiresAt else r.expiresAt;
    assert REFRESH_BEFORE > 0;
  }
}
