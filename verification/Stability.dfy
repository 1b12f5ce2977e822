/** Manifests do not come back: between followed rotations an id is effective at most once, and a
    record is marked unstable only for a manifest from before the last followed rotation. */
module Stability {
  import opened Bytes
  import opened Options
  import opened Clock
  import opened Mailkey
  import opened PeerModel
  import opened MemStores
  import opened Verdicts
  import opened Resolution
  import opened Runs
  import opened Epochs
  import opened Caches

  /** Manifest ids name manifests: `issued` is when the manifest of an id was issued. SHA-256
      without a collision among the responses of the run gives such a function. */
  predicate Named(issued: Bytes -> Time, rec: Record) {
    rec.issuedAt == issued(rec.id)
  }

  function TimelineOf(c: Cache): seq<Record> {
    if c.effective.None? then [] else [c.effective.value] + c.history
  }

  /** All that is held of a domain is named, and a record without a manifest has no history. */
  predicate AllNamed(issued: Bytes -> Time, c: Cache) {
    && (c.effective.None? ==> c.history == [])
    && forall i :: 0 <= i < |TimelineOf(c)| ==> Named(issued, TimelineOf(c)[i])
  }

  lemma TimelineOfCache(s: Slot)
    ensures Timeline(s.peer) == TimelineOf(CacheOf(s))
  {
  }

  /** Within an epoch an id is never both effective and in the history, nor twice in the history. */
  lemma EpochIsDistinct(issued: Bytes -> Time, tl: seq<Record>, n: nat)
    requires n <= |tl| && forall i, j :: 0 <= i < j < n ==> tl[i].issuedAt > tl[j].issuedAt
    requires forall i :: 0 <= i < n ==> Named(issued, tl[i])
    ensures forall i, j :: 0 <= i < j < n ==> tl[i].id != tl[j].id
  {
    forall i, j | 0 <= i < j < n ensures tl[i].id != tl[j].id {
      assert Named(issued, tl[i]) && Named(issued, tl[j]) && tl[i].issuedAt > tl[j].issuedAt;
    }
  }

  lemma ReplacedNamed(issued: Bytes -> Time, c: Cache, r: Fetched)
    requires AllNamed(issued, c) && r.manifest.issuedAt == issued(r.id)
    ensures AllNamed(issued, Replaced(c, r))
  {
    var was, tl := TimelineOf(c), TimelineOf(Replaced(c, r));
    if c.effective.Some? && c.effective.value.id != r.id {
      assert forall i :: 1 < i < |tl| ==> tl[i] == was[i - 1];
      assert |tl| > 1 ==> tl[1] == was[0].(status := Historical);
    } else {
      assert forall i :: 0 < i < |tl| ==> tl[i] == was[i];
    }
  }

  /** An id that makes the record unstable stands in its history. */
  lemma UnstableComesBack(c: Cache, r: Fetched)
    requires !c.unstable && Replaced(c, r).unstable
    ensures exists i :: 0 < i < |TimelineOf(c)| && TimelineOf(c)[i].id == r.id
  {
    var i :| 0 <= i < |c.history| && c.history[i].id == r.id;
    assert TimelineOf(c)[i + 1].id == r.id;
  }

  // --- one step --------------------------------------------------------------------------------

  predicate NamedStep(issued: Bytes -> Time, s: Slot, step: Step) {
    var answer := AnswerOf(s, step);
    answer.Some? && answer.value.Response? ==> answer.value.res.manifest.issuedAt == issued(answer.value.res.id)
  }

  predicate Follows(e: Event) { e == RotationOnly || e == RotationInstalled }

  lemma StepNamed(x: Primitives, d: Bytes, issued: Bytes -> Time, s: Slot, step: Step)
    requires AllNamed(issued, CacheOf(s)) && NamedStep(issued, s, step)
    ensures AllNamed(issued, CacheOf(Next(x, d, s, step)))
  {
    if !step.Forgetting? {
      StepCache(x, d, s, step);
      if Installs(EventOf(x, d, s, step)) { ReplacedNamed(issued, CacheOf(s), AnswerOf(s, step).value.res); }
    }
  }

  /** What a step installs in an epoch is newer than the epoch's newest, or that one again. */
  lemma StepNewer(x: Primitives, d: Bytes, issued: Bytes -> Time, s: Slot, step: Step, n: nat)
    requires AllNamed(issued, CacheOf(s)) && Ordered(s.peer, n) && GoodStep(s, step) && NamedStep(issued, s, step)
    ensures !step.Forgetting? && EventOf(x, d, s, step) == Installation ==>
      var answer, tl := AnswerOf(s, step), Timeline(s.peer);
      answer.Some? && answer.value.Response? && (n > 0 ==> NewerOrSame(answer.value.res, tl[0]))
  {
    if !step.Forgetting? && EventOf(x, d, s, step) == Installation && n > 0 {
      var t := Next(x, d, s, step);
      StepOrdered(x, d, s, step, n);
      StepCache(x, d, s, step);
      TimelineOfCache(s);
      TimelineOfCache(t);
      NewerByOrder(issued, CacheOf(s), AnswerOf(s, step).value.res, Timeline(t.peer));
    } else if !step.Forgetting? {
      StepCache(x, d, s, step);
    }
  }

  lemma NewerByOrder(issued: Bytes -> Time, c: Cache, r: Fetched, after: seq<Record>)
    requires AllNamed(issued, c) && r.manifest.issuedAt == issued(r.id) && c.effective.Some?
    requires after == TimelineOf(Replaced(c, r))
    requires c.effective.value.id != r.id ==> |after| > 1 && after[0].issuedAt > after[1].issuedAt
    ensures NewerOrSame(r, TimelineOf(c)[0])
  {
    assert Named(issued, TimelineOf(c)[0]);
    assert after[0] == RecordOf(r);
    if c.effective.value.id != r.id {
      assert after[1] == c.effective.value.(status := Historical);
    }
  }

  /** Where the epoch that a step belongs to ends: a followed rotation answers to no earlier one. */
  function EpochBound(e: Event, n: nat): nat { if Follows(e) then 0 else n }

  predicate ComesFromBefore(tl: seq<Record>, id: Bytes, n: nat) {
    exists i :: 0 < i && n <= i < |tl| && tl[i].id == id
  }

  lemma OlderOnly(issued: Bytes -> Time, c: Cache, r: Fetched, n: nat)
    requires AllNamed(issued, c) && r.manifest.issuedAt == issued(r.id) && n <= |TimelineOf(c)|
    requires forall i, j :: 0 <= i < j < n ==> TimelineOf(c)[i].issuedAt > TimelineOf(c)[j].issuedAt
    requires n > 0 ==> NewerOrSame(r, TimelineOf(c)[0])
    requires !c.unstable && Replaced(c, r).unstable
    ensures ComesFromBefore(TimelineOf(c), r.id, n)
  {
    var tl := TimelineOf(c);
    forall i | 0 < i < n ensures tl[i].id != r.id {
      assert Named(issued, tl[0]) && Named(issued, tl[i]) && tl[0].issuedAt > tl[i].issuedAt;
    }
    UnstableComesBack(c, r);
  }

  /** A step that newly marks the record unstable installs an id from before the epoch. */
  lemma StepUnstable(x: Primitives, d: Bytes, issued: Bytes -> Time, s: Slot, step: Step, n: nat)
    requires AllNamed(issued, CacheOf(s)) && Ordered(s.peer, n) && GoodStep(s, step) && NamedStep(issued, s, step)
    ensures !CacheOf(s).unstable && CacheOf(Next(x, d, s, step)).unstable ==>
      var answer := AnswerOf(s, step);
      && answer.Some? && answer.value.Response?
      && ComesFromBefore(Timeline(s.peer), answer.value.res.id, EpochBound(EventOf(x, d, s, step), n))
  {
    if !step.Forgetting? && !CacheOf(s).unstable && CacheOf(Next(x, d, s, step)).unstable {
      StepCache(x, d, s, step);
      StepNewer(x, d, issued, s, step, n);
      TimelineOfCache(s);
      OlderOnly(issued, CacheOf(s), AnswerOf(s, step).value.res, EpochBound(EventOf(x, d, s, step), n));
    }
  }

  // --- over runs -------------------------------------------------------------------------------

  predicate NamedRun(x: Primitives, d: Bytes, issued: Bytes -> Time, steps: seq<Step>) {
    forall i :: 0 <= i < |steps| ==> NamedStep(issued, After(x, d, EMPTY_SLOT, steps[..i]), steps[i])
  }

  lemma NamedPrefix(x: Primitives, d: Bytes, issued: Bytes -> Time, steps: seq<Step>)
    requires NamedRun(x, d, issued, steps) && steps != []
    ensures var k := |steps| - 1;
      NamedRun(x, d, issued, steps[..k]) && NamedStep(issued, After(x, d, EMPTY_SLOT, steps[..k]), steps[k])
  {
    var init := steps[..|steps| - 1];
    assert forall i :: 0 <= i < |init| ==> init[i] == steps[i] && init[..i] == steps[..i];
  }

  lemma {:induction false} NamedOverRun(x: Primitives, d: Bytes, issued: Bytes -> Time, steps: seq<Step>)
    requires NamedRun(x, d, issued, steps)
    ensures AllNamed(issued, CacheOf(After(x, d, EMPTY_SLOT, steps)))
    decreases |steps|
  {
    if steps != [] {
      NamedPrefix(x, d, issued, steps);
      NamedOverRun(x, d, issued, steps[..|steps| - 1]);
      StepNamed(x, d, issued, After(x, d, EMPTY_SLOT, steps[..|steps| - 1]), steps[|steps| - 1]);
    }
  }

  /** Over every run from an empty store, followed rotations included: within the epoch the
      effective id does not appear in the history, nor any id twice. */
  lemma DistinctOverRun(x: Primitives, d: Bytes, issued: Bytes -> Time, steps: seq<Step>)
    requires GoodRun(x, d, EMPTY_SLOT, steps) && NamedRun(x, d, issued, steps)
    ensures var tl := Timeline(After(x, d, EMPTY_SLOT, steps).peer); var n := EpochRun(x, d, EMPTY_SLOT, steps, 0);
      n <= |tl| && forall i, j :: 0 <= i < j < n ==> tl[i].id != tl[j].id
  {
    OrderedOverRun(x, d, EMPTY_SLOT, steps, 0);
    NamedOverRun(x, d, issued, steps);
    var s := After(x, d, EMPTY_SLOT, steps);
    TimelineOfCache(s);
    EpochIsDistinct(issued, Timeline(s.peer), EpochRun(x, d, EMPTY_SLOT, steps, 0));
  }

  /** After every run from an empty store, followed rotations included: a step that newly marks
      the record unstable installs an id from before the last followed rotation, the step's own
      included. */
  lemma UnstableOverRun(x: Primitives, d: Bytes, issued: Bytes -> Time, steps: seq<Step>, step: Step)
    requires GoodRun(x, d, EMPTY_SLOT, steps) && NamedRun(x, d, issued, steps)
    requires var s := After(x, d, EMPTY_SLOT, steps); GoodStep(s, step) && NamedStep(issued, s, step)
    ensures var s := After(x, d, EMPTY_SLOT, steps); var answer := AnswerOf(s, step);
      !CacheOf(s).unstable && CacheOf(Next(x, d, s, step)).unstable ==>
        && answer.Some? && answer.value.Response?
        && ComesFromBefore(Timeline(s.peer), answer.value.res.id,
                           EpochBound(EventOf(x, d, s, step), EpochRun(x, d, EMPTY_SLOT, steps, 0)))
  {
    OrderedOverRun(x, d, EMPTY_SLOT, steps, 0);
    NamedOverRun(x, d, issued, steps);
    StepUnstable(x, d, issued, After(x, d, EMPTY_SLOT, steps), step, EpochRun(x, d, EMPTY_SLOT, steps, 0));
  }

  // --- one epoch from the start ------------------------------------------------------------------

  /** The whole timeline is the epoch. */
  predicate Steady(s: Slot) {
    Ordered(s.peer, |Timeline(s.peer)|) && |Timeline(s.peer)| <= HISTORY_LIMIT + 1 && !CacheOf(s).unstable
  }

  lemma EpochGrows(c: Cache, r: Fetched)
    requires |TimelineOf(c)| <= HISTORY_LIMIT + 1 && (c.effective.None? ==> c.history == [])
    ensures |TimelineOf(Replaced(c, r))| == Extended(c.effective, r.id, |TimelineOf(c)|)
  {
  }

  lemma SteadyInstall(x: Primitives, d: Bytes, s: Slot, step: Step)
    requires Steady(s) && GoodStep(s, step) && !step.Forgetting? && !Follows(EventOf(x, d, s, step))
    ensures var t := Next(x, d, s, step);
      EpochNext(x, d, s, step, |Timeline(s.peer)|) == |Timeline(t.peer)| <= HISTORY_LIMIT + 1
  {
    var t := Next(x, d, s, step);
    StepCache(x, d, s, step);
    TimelineOfCache(s);
    TimelineOfCache(t);
    if EventOf(x, d, s, step) == Installation { EpochGrows(CacheOf(s), AnswerOf(s, step).value.res); }
  }

  lemma SteadyStep(x: Primitives, d: Bytes, issued: Bytes -> Time, s: Slot, step: Step)
    requires Steady(s) && AllNamed(issued, CacheOf(s)) && GoodStep(s, step) && NamedStep(issued, s, step)
    requires !Follows(EventOf(x, d, s, step))
    ensures Steady(Next(x, d, s, step))
  {
    var n := |Timeline(s.peer)|;
    StepOrdered(x, d, s, step, n);
    StepUnstable(x, d, issued, s, step, n);
    if !step.Forgetting? { SteadyInstall(x, d, s, step); }
  }

  predicate Unrotated(x: Primitives, d: Bytes, steps: seq<Step>) {
    forall i :: 0 <= i < |steps| ==> !Follows(EventOf(x, d, After(x, d, EMPTY_SLOT, steps[..i]), steps[i]))
  }

  lemma UnrotatedPrefix(x: Primitives, d: Bytes, steps: seq<Step>)
    requires GoodRun(x, d, EMPTY_SLOT, steps) && Unrotated(x, d, steps) && steps != []
    ensures var k := |steps| - 1; var s := After(x, d, EMPTY_SLOT, steps[..k]);
      && GoodRun(x, d, EMPTY_SLOT, steps[..k]) && Unrotated(x, d, steps[..k])
      && GoodStep(s, steps[k]) && !Follows(EventOf(x, d, s, steps[k]))
  {
    var init := steps[..|steps| - 1];
    assert forall i :: 0 <= i < |init| ==> init[i] == steps[i] && init[..i] == steps[..i];
  }

  /** With no rotation followed the epoch is all there is: the whole history is strictly newest
      first, and the record is never unstable. */
  lemma {:induction false} SteadyOverRun(x: Primitives, d: Bytes, issued: Bytes -> Time, steps: seq<Step>)
    requires GoodRun(x, d, EMPTY_SLOT, steps) && NamedRun(x, d, issued, steps) && Unrotated(x, d, steps)
    ensures Steady(After(x, d, EMPTY_SLOT, steps))
    decreases |steps|
  {
    if steps != [] {
      var init := steps[..|steps| - 1];
      NamedPrefix(x, d, issued, steps);
      UnrotatedPrefix(x, d, steps);
      NamedOverRun(x, d, issued, init);
      SteadyOverRun(x, d, issued, init);
      SteadyStep(x, d, issued, After(x, d, EMPTY_SLOT, init), steps[|steps| - 1]);
    }
  }
}
