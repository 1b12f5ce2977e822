/** Concurrent resolutions of one domain share one fetch (resolver/resolver.go). Callers
    interleave at every critical section; a caller is named by a number, and the call it owns by
    the same number. */
module SingleFlight {
  import opened Bytes
  import opened Options
  import opened Text
  import opened Mailkey

  /** The normalized pair a caller asks for; an empty authority is the domain itself. */
  datatype Request = Request(domain: Bytes, authority: Bytes)

  predicate WellFormed(q: Request) {
    IsDomain(q.domain) && (q.authority == [] || IsDomain(q.authority)) && q.authority != q.domain
  }

  function Normalized(x: Primitives, domain: Bytes, authority: Bytes): Result<Request> {
    var d :- x.normalize(domain);
    if authority == [] then Ok(Request(d, []))
    else
      var a :- x.normalize(authority);
      Ok(Request(d, if a == d then [] else a))
  }

  function Key(q: Request): Bytes {
    if q.authority == [] then q.domain else q.domain + "@" + q.authority
  }

  lemma NormalizedIsWellFormed(x: Primitives, domain: Bytes, authority: Bytes)
    requires Sound(x) && Normalized(x, domain, authority).Ok?
    ensures WellFormed(Normalized(x, domain, authority).value)
  {
  }

  lemma DomainHasNoAt(d: Bytes)
    requires IsDomain(d)
    ensures Without(d, '@')
  {
    forall i | 0 <= i < |d| ensures d[i] != '@' { assert IsDomainByte(d[i]); }
  }

  /** Different requests have different keys. */
  lemma KeyInjective(p: Request, q: Request)
    requires WellFormed(p) && WellFormed(q) && Key(p) == Key(q)
    ensures p == q
  {
    SplitKey(p);
    SplitKey(q);
  }

  lemma SplitKey(q: Request)
    requires WellFormed(q)
    ensures Split(Key(q), '@') == if q.authority == [] then [q.domain] else [q.domain, q.authority]
  {
    DomainHasNoAt(q.domain);
    if q.authority == [] {
      SplitWhole(q.domain, '@');
    } else {
      DomainHasNoAt(q.authority);
      SplitAt(q.domain, '@', q.authority);
      SplitWhole(q.authority, '@');
    }
  }

  /** Calls that share a key asked for the same domain through the same authority, however they
      spelled them. */
  lemma SharedKeyIsSharedRequest(
    x: Primitives, domain: Bytes, authority: Bytes, otherDomain: Bytes, otherAuthority: Bytes)
    requires Sound(x) && Normalized(x, domain, authority).Ok? && Normalized(x, otherDomain, otherAuthority).Ok?
    ensures var p, q := Normalized(x, domain, authority).value, Normalized(x, otherDomain, otherAuthority).value;
      Key(p) == Key(q) <==> p == q
  {
    NormalizedIsWellFormed(x, domain, authority);
    NormalizedIsWellFormed(x, otherDomain, otherAuthority);
    var p, q := Normalized(x, domain, authority).value, Normalized(x, otherDomain, otherAuthority).value;
    if Key(p) == Key(q) { KeyInjective(p, q); }
  }

  // --- the state machine -----------------------------------------------------------------------

  type Caller = nat

  /** Where a caller stands, generic in what a fetch yields. `Returned` says whose fetch it
      returned. */
  datatype Phase<O> =
    | Fetching
    | Fetched(o: O)
    | Unlisted(o: O)
    | Waiting(owner: Caller)
    | Returned(o: O, owner: Caller)
    | Cancelled

  datatype Thread<O> = Thread(req: Request, phase: Phase<O>)

  datatype State<O> = State(inflight: map<Bytes, Caller>, threads: map<Caller, Thread<O>>)

  datatype Step<O> =
    | Enter(t: Caller, req: Request)   // the first critical section: join or own
    | Fetch(t: Caller, o: O)           // the owner's fetch comes back
    | Unlist(t: Caller)                // the second critical section
    | Close(t: Caller)                 // the owner publishes and returns
    | Wake(t: Caller)                  // a waiter sees the call done
    | Cancel(t: Caller)                // a waiter's context ends

  predicate At<O(==)>(s: State<O>, t: Caller, p: Phase<O>) {
    t in s.threads && s.threads[t].phase == p
  }

  predicate IsWaiting<O>(s: State<O>, t: Caller) {
    t in s.threads && s.threads[t].phase.Waiting?
  }

  predicate Enabled<O>(s: State<O>, step: Step<O>) {
    match step
    case Enter(t, req) => t !in s.threads && WellFormed(req)
    case Fetch(t, _) => t in s.threads && s.threads[t].phase.Fetching?
    case Unlist(t) => t in s.threads && s.threads[t].phase.Fetched?
    case Close(t) => t in s.threads && s.threads[t].phase.Unlisted?
    case Wake(t) => IsWaiting(s, t) && Done(s, s.threads[t].phase.owner)
    case Cancel(t) => IsWaiting(s, t)
  }

  /** The owner's call is closed: its result may be read. */
  predicate Done<O>(s: State<O>, u: Caller) {
    u in s.threads && s.threads[u].phase.Returned?
  }

  function Moved<O>(s: State<O>, t: Caller, p: Phase<O>): State<O>
    requires t in s.threads
  {
    s.(threads := s.threads[t := s.threads[t].(phase := p)])
  }

  function Next<O>(s: State<O>, step: Step<O>): State<O>
    requires Enabled(s, step)
  {
    match step
    case Enter(t, req) =>
      if Key(req) in s.inflight then s.(threads := s.threads[t := Thread(req, Waiting(s.inflight[Key(req)]))])
      else State(s.inflight[Key(req) := t], s.threads[t := Thread(req, Fetching)])
    case Fetch(t, o) => Moved(s, t, Phase.Fetched(o))
    case Unlist(t) => Moved(s, t, Unlisted(s.threads[t].phase.o)).(inflight := s.inflight - {Key(s.threads[t].req)})
    case Close(t) => Moved(s, t, Returned(s.threads[t].phase.o, t))
    case Wake(t) =>
      var u := s.threads[t].phase.owner;
      Moved(s, t, Returned(s.threads[u].phase.o, u))
    case Cancel(t) => Moved(s, t, Cancelled)
  }

  /** Owns a call that others can still join. */
  predicate Listed<O>(th: Thread<O>) { th.phase.Fetching? || th.phase.Fetched? }

  predicate KeyOwned<O>(s: State<O>, k: Bytes)
    requires k in s.inflight
  {
    var t := s.inflight[k];
    t in s.threads && Listed(s.threads[t]) && Key(s.threads[t].req) == k
  }

  predicate Registered<O>(s: State<O>, t: Caller)
    requires t in s.threads
  {
    Listed(s.threads[t]) ==> Key(s.threads[t].req) in s.inflight && s.inflight[Key(s.threads[t].req)] == t
  }

  /** The list and its owners are one and the same: whoever is listed owns the key, so at most one
      caller owns each key. */
  predicate Owners<O>(s: State<O>) {
    && (forall k :: k in s.inflight ==> KeyOwned(s, k))
    && (forall t :: t in s.threads ==> Registered(s, t))
  }

  /** `u` is the owner of a call for this request. */
  predicate OwnsFor<O>(s: State<O>, u: Caller, req: Request) {
    && u in s.threads && s.threads[u].req == req
    && (Listed(s.threads[u]) || s.threads[u].phase.Unlisted?
        || (s.threads[u].phase.Returned? && s.threads[u].phase.owner == u))
  }

  /** Waiters wait for, and callers return, a call made for the very request they made. */
  predicate Honest<O(==)>(s: State<O>, t: Caller)
    requires t in s.threads
  {
    && WellFormed(s.threads[t].req)
    && match s.threads[t].phase
       case Waiting(u) => OwnsFor(s, u, s.threads[t].req)
       case Returned(o, u) => OwnsFor(s, u, s.threads[t].req) && At(s, u, Returned(o, u))
       case _ => true
  }

  predicate Inv<O(==)>(s: State<O>) {
    Owners(s) && forall t :: t in s.threads ==> Honest(s, t)
  }

  lemma JoinsSameRequest<O>(s: State<O>, req: Request)
    requires Inv(s) && WellFormed(req) && Key(req) in s.inflight
    ensures OwnsFor(s, s.inflight[Key(req)], req)
  {
    var u := s.inflight[Key(req)];
    assert KeyOwned(s, Key(req)) && Honest(s, u);
    KeyInjective(s.threads[u].req, req);
  }

  lemma KeyKept<O>(s: State<O>, step: Step<O>, k: Bytes)
    requires Owners(s) && Enabled(s, step) && k in Next(s, step).inflight
    ensures KeyOwned(Next(s, step), k)
  {
    if k in s.inflight { assert KeyOwned(s, k); }
  }

  lemma RegistrationKept<O>(s: State<O>, step: Step<O>, t: Caller)
    requires Owners(s) && Enabled(s, step) && t in Next(s, step).threads
    ensures Registered(Next(s, step), t)
  {
    if t in s.threads { assert Registered(s, t); }
    if step.Unlist? { assert Registered(s, step.t); }
    if step.Enter? && Key(step.req) in s.inflight { assert KeyOwned(s, Key(step.req)); }
  }

  lemma OwnersKept<O>(s: State<O>, step: Step<O>)
    requires Owners(s) && Enabled(s, step)
    ensures Owners(Next(s, step))
  {
    var n := Next(s, step);
    forall k | k in n.inflight ensures KeyOwned(n, k) { KeyKept(s, step, k); }
    forall t | t in n.threads ensures Registered(n, t) { RegistrationKept(s, step, t); }
  }

  lemma EntrantHonest<O>(s: State<O>, t: Caller, req: Request)
    requires Inv(s) && Enabled(s, Enter(t, req))
    ensures Honest(Next(s, Enter(t, req)), t)
  {
    if Key(req) in s.inflight { JoinsSameRequest(s, req); }
  }

  lemma HonestKept<O>(s: State<O>, step: Step<O>, t: Caller)
    requires Inv(s) && Enabled(s, step) && t in s.threads
    ensures Honest(Next(s, step), t)
  {
    assert Honest(s, t);
  }

  /** No critical section, and no arrival of a result, breaks the invariant. */
  lemma StepKeeps<O>(s: State<O>, step: Step<O>)
    requires Inv(s) && Enabled(s, step)
    ensures Inv(Next(s, step))
  {
    OwnersKept(s, step);
    forall t | t in Next(s, step).threads ensures Honest(Next(s, step), t) {
      if t in s.threads { HonestKept(s, step, t); } else { EntrantHonest(s, t, step.req); }
    }
  }

  predicate Run<O>(s: State<O>, steps: seq<Step<O>>)
    decreases |steps|
  {
    steps == [] || (Enabled(s, steps[0]) && Run(Next(s, steps[0]), steps[1..]))
  }

  function After<O>(s: State<O>, steps: seq<Step<O>>): State<O>
    requires Run(s, steps)
    decreases |steps|
  {
    if steps == [] then s else After(Next(s, steps[0]), steps[1..])
  }

  lemma {:induction false} RunKeeps<O>(s: State<O>, steps: seq<Step<O>>)
    requires Inv(s) && Run(s, steps)
    ensures Inv(After(s, steps))
    decreases |steps|
  {
    if steps != [] {
      StepKeeps(s, steps[0]);
      RunKeeps(Next(s, steps[0]), steps[1..]);
    }
  }

  /** In every interleaving: a key has at most one owner, and an owner that takes its call off
      the list takes off its own. */
  lemma OneOwnerPerKey<O>(steps: seq<Step<O>>, t: Caller)
    requires Run(State(map[], map[]), steps)
    requires var s := After(State(map[], map[]), steps); t in s.threads && Listed(s.threads[t])
    ensures var s := After(State(map[], map[]), steps); var k := Key(s.threads[t].req);
      && k in s.inflight && s.inflight[k] == t
      && forall u :: u in s.threads && Listed(s.threads[u]) && Key(s.threads[u].req) == k ==> u == t
  {
    var none: State<O> := State(map[], map[]);
    RunKeeps(none, steps);
    var s := After(none, steps);
    assert forall u :: u in s.threads ==> Registered(s, u);
  }

  /** In every interleaving: what a caller returns is the outcome its owner returned, and that
      owner asked for the same domain through the same authority. */
  lemma OutcomeIsTheOwners<O>(steps: seq<Step<O>>, t: Caller)
    requires Run(State(map[], map[]), steps)
    requires var s := After(State(map[], map[]), steps); t in s.threads && s.threads[t].phase.Returned?
    ensures var s := After(State(map[], map[]), steps); var u := s.threads[t].phase.owner;
      && u in s.threads && s.threads[u].req == s.threads[t].req
      && s.threads[u].phase == Returned(s.threads[t].phase.o, u)
  {
    var none: State<O> := State(map[], map[]);
    RunKeeps(none, steps);
    assert Honest(After(none, steps), t);
  }
}
