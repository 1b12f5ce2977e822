/** The in-memory store: peers by domain, and the capability latch in a map of its own
    (peer/memstore.go). Each method is one critical section under the store's mutex. */
module MemStores {
  import opened Bytes
  import opened Options
  import opened Clock
  import opened Mailkey
  import opened PeerModel

  /** What is known of a domain's transport; it outlives the peer record. */
  datatype Capability = Capability(
    ever: bool, firstAt: Time, lastAt: Time, disabled: bool, disabledAt: Time, reason: Bytes)
  {
    predicate Requires() { ever && !disabled }
  }

  const NO_CAPABILITY := Capability(false, 0, 0, false, 0, [])

  function Marked(c: Capability, at: Time): Capability {
    (if c.ever then c else c.(ever := true, firstAt := at)).(lastAt := at)
  }

  function Downgraded(c: Capability, off: bool, reason: Bytes, at: Time): Capability {
    if off then c.(disabled := true, disabledAt := at, reason := reason)
    else c.(disabled := false, disabledAt := 0, reason := [])
  }

  /** Everything a store holds about one domain. */
  datatype Slot = Slot(peer: Option<Peer>, cap: Capability)

  function Upserted(s: Slot, d: Bytes): Peer {
    if s.peer.Some? then s.peer.value else NewPeer(d)
  }

  const EMPTY_SLOT := Slot(None, NO_CAPABILITY)

  // --- the steps, on one domain's slot ----------------------------------------------------

  function PutObservationSlot(s: Slot, d: Bytes, o: Observation, now: Time): Slot {
    s.(peer := Some(Observed(Upserted(s, d), o, now)))
  }

  datatype StoreResult = Stored | OtherDomain | AdministrativelyDisabled

  /** InstallManifest refuses another domain's result, and a disabled peer. */
  function InstallSlot(s: Slot, d: Bytes, r: Fetched, now: Time): (Slot, StoreResult) {
    if r.manifest.domain != d then (s, OtherDomain)
    else if Upserted(s, d).policy == Disabled then (s.(peer := Some(Upserted(s, d))), AdministrativelyDisabled)
    else (s.(peer := Some(Installed(Upserted(s, d), r, now))), Stored)
  }

  function RecordFailureSlot(s: Slot, d: Bytes, now: Time): Slot {
    s.(peer := Some(FailedResolution(Upserted(s, d), now)))
  }

  /** SetPolicy accepts the three named policies only. */
  function SetPolicySlot(s: Slot, d: Bytes, policy: Policy, now: Time): Slot {
    if policy == Unset then s else s.(peer := Some(Reconciled(Upserted(s, d).(policy := policy), now)))
  }

  /** An automatic peer is deleted; any other keeps its policy and its identity. */
  function ForgetSlot(s: Slot): Slot {
    if s.peer.None? then s
    else if s.peer.value.policy == Auto then s.(peer := None)
    else s.(peer := Some(Forgotten(s.peer.value)))
  }

  /** SetIdentity creates a missing record with the empty policy. */
  function SetIdentitySlot(s: Slot, d: Bytes, st: IdentityState): Slot {
    var p := if s.peer.Some? then s.peer.value else NewPeer(d).(policy := Unset);
    s.(peer := Some(p.(identity := st)))
  }

  function MarkSlot(s: Slot, at: Time): Slot { s.(cap := Marked(s.cap, at)) }

  function DowngradeSlot(s: Slot, off: bool, reason: Bytes, at: Time): Slot {
    s.(cap := Downgraded(s.cap, off, reason, at))
  }

  // --- the store ----------------------------------------------------------------------------

  class MemStore {
    var peers: map<Bytes, PeerRecord>
    var caps: map<Bytes, Capability>

    ghost function Objects(): set<object>
      reads this
    {
      set d | d in peers :: peers[d]
    }

    /** No record serves two domains. */
    ghost predicate Valid()
      reads this
    {
      forall d, e :: d in peers && e in peers && d != e ==> peers[d] != peers[e]
    }

    /** What the store holds about a domain. */
    ghost function SlotOf(d: Bytes): Slot
      reads this, Objects()
    {
      Slot(if d in peers then Some(peers[d].View()) else None, if d in caps then caps[d] else NO_CAPABILITY)
    }

    /** The slot of `d` became `s`; no other domain's slot changed. */
    twostate predicate Became(d: Bytes, s: Slot)
      reads this, Objects()
    {
      && Valid() && fresh(Objects() - old(Objects()))
      && SlotOf(d) == s
      && forall e :: e != d ==> SlotOf(e) == old(SlotOf(e))
    }

    constructor ()
      ensures Valid() && fresh(Objects())
      ensures forall d :: SlotOf(d) == EMPTY_SLOT
    {
      peers, caps := map[], map[];
    }

    /** A copy, with the derived state current. */
    method GetPeer(d: Bytes, now: Time) returns (p: Option<Peer>)
      requires Valid()
      ensures p == match SlotOf(d).peer
        case None => None
        case Some(q) => Some(Reconciled(q, now))
    {
      if d !in peers {
        return None;
      }
      var copy := new PeerRecord(peers[d].View());
      copy.Reconcile(now);
      return Some(copy.View());
    }

    method Upsert(d: Bytes) returns (p: PeerRecord)
      requires Valid()
      modifies this`peers
      ensures d in peers && peers[d] == p
      ensures Became(d, old(SlotOf(d)).(peer := Some(Upserted(old(SlotOf(d)), d))))
    {
      if d !in peers {
        p := new PeerRecord(NewPeer(d));
        peers := peers[d := p];
      } else {
        p := peers[d];
      }
    }

    method PutObservation(d: Bytes, o: Observation, now: Time)
      requires Valid()
      modifies this`peers, Objects()
      ensures Became(d, PutObservationSlot(old(SlotOf(d)), d, o, now))
    {
      var p := Upsert(d);
      p.Observe(o, now);
    }

    method InstallManifest(d: Bytes, r: Fetched, now: Time) returns (e: StoreResult)
      requires Valid()
      modifies this`peers, Objects()
      ensures e == InstallSlot(old(SlotOf(d)), d, r, now).1
      ensures Became(d, InstallSlot(old(SlotOf(d)), d, r, now).0)
    {
      if r.manifest.domain != d {
        return OtherDomain;
      }
      var p := Upsert(d);
      if p.policy == Disabled {
        return AdministrativelyDisabled;
      }
      p.Install(r, now);
      return Stored;
    }

    method RecordFailure(d: Bytes, now: Time)
      requires Valid()
      modifies this`peers, Objects()
      ensures Became(d, RecordFailureSlot(old(SlotOf(d)), d, now))
    {
      var p := Upsert(d);
      p.Fail(now);
    }

    method SetPolicy(d: Bytes, policy: Policy, now: Time) returns (ok: bool)
      requires Valid()
      modifies this`peers, Objects()
      ensures ok <==> policy != Unset
      ensures Became(d, SetPolicySlot(old(SlotOf(d)), d, policy, now))
    {
      if policy == Unset {
        return false;
      }
      var p := Upsert(d);
      p.SetPolicy(policy, now);
      return true;
    }

    /** Touches `peers` and nothing else: the latch cannot be forgotten with the cache. */
    method ForgetPeer(d: Bytes)
      requires Valid()
      modifies this`peers, Objects()
      ensures Became(d, ForgetSlot(old(SlotOf(d)))) && caps == old(caps)
    {
      if d !in peers {
        return;
      }
      if peers[d].policy == Auto {
        peers := peers - {d};
        return;
      }
      peers[d].Forget();
    }

    method SetIdentity(d: Bytes, st: IdentityState)
      requires Valid()
      modifies this`peers, Objects()
      ensures Became(d, SetIdentitySlot(old(SlotOf(d)), d, st))
    {
      if d !in peers {
        var p := new PeerRecord(NewPeer(d).(policy := Unset));
        peers := peers[d := p];
      }
      peers[d].identity := st;
    }

    method CapabilityOf(d: Bytes) returns (c: Capability)
      ensures c == SlotOf(d).cap
    {
      return if d in caps then caps[d] else NO_CAPABILITY;
    }

    method MarkValidated(d: Bytes, at: Time)
      requires Valid()
      modifies this`caps
      ensures Became(d, MarkSlot(old(SlotOf(d)), at))
    {
      var c := CapabilityOf(d);
      if !c.ever {
        c := c.(ever := true, firstAt := at);
      }
      c := c.(lastAt := at);
      caps := caps[d := c];
    }

    method SetMKDP1Disabled(d: Bytes, off: bool, reason: Bytes, at: Time)
      requires Valid()
      modifies this`caps
      ensures Became(d, DowngradeSlot(old(SlotOf(d)), off, reason, at))
    {
      var c := CapabilityOf(d);
      c := c.(disabled := off, disabledAt := at, reason := reason);
      if !off {
        c := c.(disabledAt := 0, reason := []);
      }
      caps := caps[d := c];
    }
  }
}
