/** The background queue (peer/service.go): schedulers and workers interleave at every lock and
    every channel operation. A token for a domain is whoever holds it on its way from the
    scheduler that put it in the pending set to whoever takes it out. */
module TriggerQueue {
  import opened Bytes

  /** `sending` and `dropping`: schedulers before their send, and before their delete. `taken` and
      `starting`: workers before their delete, and between it and the resolve that follows. */
  datatype Queue = Queue(
    capacity: nat, pending: set<Bytes>, queue: seq<Bytes>,
    sending: multiset<Bytes>, dropping: multiset<Bytes>, taken: multiset<Bytes>, starting: multiset<Bytes>)

  function Empty(capacity: nat): Queue {
    Queue(capacity, {}, [], multiset{}, multiset{}, multiset{}, multiset{})
  }

  datatype Step =
    | Trigger(d: Bytes)   // schedule, its first critical section
    | Send(d: Bytes)      // the channel had room
    | Shed(d: Bytes)      // the channel was full
    | Drop(d: Bytes)      // schedule, its second critical section
    | Take                // a worker receives
    | Release(d: Bytes)   // the worker's critical section
    | Begin(d: Bytes)     // the worker's resolve starts

  predicate Enabled(s: Queue, step: Step) {
    match step
    case Trigger(_) => true
    case Send(d) => d in s.sending && |s.queue| < s.capacity
    case Shed(d) => d in s.sending && |s.queue| >= s.capacity
    case Drop(d) => d in s.dropping
    case Take => s.queue != []
    case Release(d) => d in s.taken
    case Begin(d) => d in s.starting
  }

  predicate Accepts(s: Queue, step: Step) { step.Trigger? && step.d !in s.pending }

  function Next(s: Queue, step: Step): Queue
    requires Enabled(s, step)
  {
    match step
    case Trigger(d) =>
      if d in s.pending then s else s.(pending := s.pending + {d}, sending := s.sending + multiset{d})
    case Send(d) => s.(sending := s.sending - multiset{d}, queue := s.queue + [d])
    case Shed(d) => s.(sending := s.sending - multiset{d}, dropping := s.dropping + multiset{d})
    case Drop(d) => s.(dropping := s.dropping - multiset{d}, pending := s.pending - {d})
    case Take => s.(queue := s.queue[1..], taken := s.taken + multiset{s.queue[0]})
    case Release(d) =>
      s.(taken := s.taken - multiset{d}, pending := s.pending - {d}, starting := s.starting + multiset{d})
    case Begin(d) => s.(starting := s.starting - multiset{d})
  }

  /** How many hold the domain between entering and leaving the pending set. */
  function Tokens(s: Queue, d: Bytes): nat {
    s.sending[d] + s.dropping[d] + multiset(s.queue)[d] + s.taken[d]
  }

  ghost predicate Inv(s: Queue) {
    && |s.queue| <= s.capacity
    && forall d :: Tokens(s, d) == if d in s.pending then 1 else 0
  }

  lemma QueueHead(q: seq<Bytes>)
    requires q != []
    ensures multiset(q) == multiset{q[0]} + multiset(q[1..])
  {
    assert q == [q[0]] + q[1..];
  }

  /** No critical section, send or receive ever makes or loses a token. */
  lemma StepKeeps(s: Queue, step: Step)
    requires Inv(s) && Enabled(s, step)
    ensures Inv(Next(s, step))
  {
    if step.Take? { QueueHead(s.queue); }
    var t := Next(s, step);
    forall d ensures Tokens(t, d) == if d in t.pending then 1 else 0 {
      assert Tokens(s, d) == if d in s.pending then 1 else 0;
    }
  }

  // --- runs ------------------------------------------------------------------------------------

  predicate Run(s: Queue, steps: seq<Step>)
    decreases |steps|
  {
    steps == [] || (Enabled(s, steps[0]) && Run(Next(s, steps[0]), steps[1..]))
  }

  function After(s: Queue, steps: seq<Step>): Queue
    requires Run(s, steps)
    decreases |steps|
  {
    if steps == [] then s else After(Next(s, steps[0]), steps[1..])
  }

  /** In every interleaving a domain is pending exactly when one token for it exists. */
  lemma {:induction false} OneTokenEach(s: Queue, steps: seq<Step>)
    requires Inv(s) && Run(s, steps)
    ensures Inv(After(s, steps)) && After(s, steps).capacity == s.capacity
    decreases |steps|
  {
    if steps != [] {
      StepKeeps(s, steps[0]);
      OneTokenEach(Next(s, steps[0]), steps[1..]);
    }
  }

  lemma {:induction false} CountOfTwo(q: seq<Bytes>, i: nat, j: nat)
    requires i < j < |q| && q[i] == q[j]
    ensures multiset(q)[q[i]] >= 2
  {
    QueueHead(q);
    if i == 0 {
      assert q[j] == q[1..][j - 1] && q[j] in multiset(q[1..]);
    } else {
      CountOfTwo(q[1..], i - 1, j - 1);
    }
  }

  /** So however many triggers race, a domain occupies at most one queue slot. */
  lemma AtMostOneSlot(capacity: nat, steps: seq<Step>)
    requires Run(Empty(capacity), steps)
    ensures var q := After(Empty(capacity), steps).queue;
      |q| <= capacity && forall i, j :: 0 <= i < j < |q| ==> q[i] != q[j]
  {
    OneTokenEach(Empty(capacity), steps);
    var s := After(Empty(capacity), steps);
    forall i, j | 0 <= i < j < |s.queue| ensures s.queue[i] != s.queue[j] {
      assert Tokens(s, s.queue[i]) <= 1;
      if s.queue[i] == s.queue[j] { CountOfTwo(s.queue, i, j); }
    }
  }

  // --- nothing is forgotten ----------------------------------------------------------------------

  /** Someone still answers for the domain: a token is out, or a worker is about to resolve it. */
  predicate Owed(s: Queue, d: Bytes) { Tokens(s, d) > 0 || d in s.starting }

  /** A resolve of the domain starts, or its trigger is dropped, which is reported. */
  predicate Settles(step: Step, d: Bytes) { step == Begin(d) || step == Drop(d) }

  lemma OwedUntilSettled(s: Queue, step: Step, d: Bytes)
    requires Enabled(s, step) && Owed(s, d) && !Settles(step, d)
    ensures Owed(Next(s, step), d)
  {
    if step.Take? { QueueHead(s.queue); }
  }

  lemma {:induction false} DebtIsPaid(s: Queue, steps: seq<Step>, d: Bytes)
    requires Run(s, steps) && Owed(s, d)
    ensures (exists j :: 0 <= j < |steps| && Settles(steps[j], d)) || Owed(After(s, steps), d)
    decreases |steps|
  {
    if steps != [] && !Settles(steps[0], d) {
      OwedUntilSettled(s, steps[0], d);
      DebtIsPaid(Next(s, steps[0]), steps[1..], d);
      assert forall j :: 0 <= j < |steps[1..]| ==> steps[1..][j] == steps[j + 1];
    }
  }

  /** Every trigger, coalesced or not, is covered: in whatever happens next the domain is
      resolved, or dropped, or someone is still on the way. */
  lemma TriggerIsCovered(s: Queue, d: Bytes, later: seq<Step>)
    requires Inv(s) && Run(Next(s, Trigger(d)), later)
    ensures (exists j :: 0 <= j < |later| && Settles(later[j], d)) || Owed(After(Next(s, Trigger(d)), later), d)
  {
    assert Tokens(s, d) == if d in s.pending then 1 else 0;
    DebtIsPaid(Next(s, Trigger(d)), later, d);
  }

  function AcceptedTriggers(s: Queue, steps: seq<Step>, d: Bytes): nat
    requires Run(s, steps)
    decreases |steps|
  {
    if steps == [] then 0
    else (if Accepts(s, steps[0]) && steps[0].d == d then 1 else 0) + AcceptedTriggers(Next(s, steps[0]), steps[1..], d)
  }

  function Settled(steps: seq<Step>, d: Bytes): nat {
    if steps == [] then 0 else (if Settles(steps[0], d) then 1 else 0) + Settled(steps[1..], d)
  }

  function Owing(s: Queue, d: Bytes): nat { Tokens(s, d) + s.starting[d] }

  /** What a step accepts it owes, and what it settles it owes no more. */
  predicate Conserves(s: Queue, step: Step, d: Bytes)
    requires Enabled(s, step)
  {
    Owing(s, d) + (if Accepts(s, step) && step.d == d then 1 else 0)
    == Owing(Next(s, step), d) + (if Settles(step, d) then 1 else 0)
  }

  lemma TakeConserves(s: Queue, d: Bytes)
    requires Enabled(s, Take)
    ensures Conserves(s, Take, d)
  {
    QueueHead(s.queue);
  }

  lemma SendConserves(s: Queue, e: Bytes, d: Bytes)
    requires Enabled(s, Send(e))
    ensures Conserves(s, Send(e), d)
  {
    assert multiset(s.queue + [e]) == multiset(s.queue) + multiset{e};
  }

  lemma SchedulerConserves(s: Queue, e: Bytes, d: Bytes)
    ensures Conserves(s, Trigger(e), d)
    ensures Enabled(s, Shed(e)) ==> Conserves(s, Shed(e), d)
    ensures Enabled(s, Drop(e)) ==> Conserves(s, Drop(e), d)
  {
  }

  lemma WorkerConserves(s: Queue, e: Bytes, d: Bytes)
    ensures Enabled(s, Release(e)) ==> Conserves(s, Release(e), d)
    ensures Enabled(s, Begin(e)) ==> Conserves(s, Begin(e), d)
  {
  }

  lemma StepConserves(s: Queue, step: Step, d: Bytes)
    requires Enabled(s, step)
    ensures Conserves(s, step, d)
  {
    match step
    case Trigger(e) => SchedulerConserves(s, e, d);
    case Send(e) => SendConserves(s, e, d);
    case Shed(e) => SchedulerConserves(s, e, d);
    case Drop(e) => SchedulerConserves(s, e, d);
    case Take => TakeConserves(s, d);
    case Release(e) => WorkerConserves(s, e, d);
    case Begin(e) => WorkerConserves(s, e, d);
  }

  /** Conservation: each accepted trigger becomes exactly one resolve start, one drop, or one
      outstanding token; a flood that coalesces starts nothing extra. */
  lemma {:induction false} TriggersConserved(s: Queue, steps: seq<Step>, d: Bytes)
    requires Run(s, steps)
    ensures Owing(s, d) + AcceptedTriggers(s, steps, d) == Settled(steps, d) + Owing(After(s, steps), d)
    decreases |steps|
  {
    if steps != [] {
      StepConserves(s, steps[0], d);
      TriggersConserved(Next(s, steps[0]), steps[1..], d);
    }
  }
}
