/**
 The end of an I/O context, continued: whenever something late is left when the last reference goes,
 a run exists in which the worker is still at the freed context or comes back to it.
 */
module AioLate {
  import opened AioRing
  import opened Aio
  import opened AioInvariant
  import opened AioSteps
  import opened AioTheorems
  import opened AioPasses
  import opened AioClosing

  /** flush_workqueue is waiting, and not for the work item. */
  ghost predicate Waiting(s: State) { Sound(s) && s.closing.Flushing? && !s.closing.item }

  /** Pass k ends. */
  function Ended(s: State, k: nat): Step
    requires k < |s.passes|
  {
    OnPass(k, if s.passes[k].work.Requeueing? then Requeue else EndPass)
  }

  /** Pass k, which does not wait for __put_ioctx itself, can end. */
  lemma CanEnd(s: State, k: nat)
    requires Waiting(s) && k < s.closing.upTo && s.closing.who != ThePass(k)
    ensures s.ring.Valid() && k < |s.passes|
    ensures !s.passes[k].work.Done? ==>
              && Enabled(s, Ended(s, k))
              && var t := Apply(s, Ended(s, k));
                 && t.passes == s.passes[k := s.passes[k].(work := Done)] && t.closing == s.closing
                 && t.wakers == s.wakers
  {
    hide Structure, Sum, Contents, EventsOk, FputsOk, WorkOk, Covered;
    NobodyLeft(s);
    assert Spent(s.passes[k]);
  }

  /** What passes 0 to n - 1 have come to, except `keep` and the one that waits for __put_ioctx. */
  ghost predicate EndedUpTo(s: State, t: State, n: nat, keep: int) {
    && t.closing == s.closing && |t.passes| == |s.passes| && n <= |s.passes|
    && (forall k: nat :: k < n && k != keep && !(s.closing.Flushing? && s.closing.who == ThePass(k)) ==>
          t.passes[k].work.Done?)
    && (forall k: nat :: k < |s.passes| && (k >= n || k == keep) ==> t.passes[k] == s.passes[k])
  }

  lemma {:induction false} EndAll(s: State, n: nat, keep: int) returns (steps: seq<Step>)
    requires Waiting(s) && n <= s.closing.upTo
    ensures Possible(s, steps) && Waiting(After(s, steps)) && EndedUpTo(s, After(s, steps), n, keep)
    ensures After(s, steps).wakers == s.wakers
  {
    hide Sound, Possible, After, Apply, Enabled;
    Nothing(s);
    UpToKnown(s);
    if n == 0 {
      steps := [];
    } else {
      steps := EndAll(s, n - 1, keep);
      var t := After(s, steps);
      if n - 1 != keep && s.closing.who != ThePass(n - 1) {
        CanEnd(t, n - 1);
        if !t.passes[n - 1].work.Done? {
          OneMoreStep(s, steps, Ended(t, n - 1));
          StepSound(t, Ended(t, n - 1));
          steps := steps + [Ended(t, n - 1)];
        }
      }
    }
  }

  lemma UpToKnown(s: State)
    requires Waiting(s)
    ensures s.closing.upTo <= |s.passes|
  {
    hide Inv, Covered;
  }

  lemma Nothing(s: State)
    ensures Possible(s, []) && After(s, []) == s
  {}

  /** __put_ioctx gets to flush_workqueue, and the work item, if it is in the queue, to the worker. */
  lemma StartFlush(s: State) returns (steps: seq<Step>)
    requires Sound(s) && s.closing.Stopping?
    ensures Possible(s, steps) && Waiting(After(s, steps))
    ensures var t := After(s, steps);
            && t.closing.who == s.closing.who && t.wakers == s.wakers
            && |s.passes| <= t.closing.upTo && s.passes <= t.passes
  {
    hide Inv, Covered, ClosingOk, Possible, After, StartPass;
    RingValid(s);
    Nothing(s);
    var t := ApplyCancelWork(s);
    StepSound(s, OnCtx(CancelWork));
    OneMoreStep(s, [], OnCtx(CancelWork));
    steps := [] + [OnCtx(CancelWork)];
    if t.closing.item {
      ItemQueued(t);
      StepSound(t, OnCtx(WorkerStart));
      OneMoreStep(s, steps, OnCtx(WorkerStart));
      WorkerTakesItem(t);
      steps := steps + [OnCtx(WorkerStart)];
    }
  }

  lemma RingValid(s: State)
    requires Inv(s)
    ensures s.ring.Valid()
  {}

  lemma ItemQueued(s: State)
    requires Sound(s) && s.closing.Flushing? && s.closing.item
    ensures s.workQueued && !s.timer && s.ring.Valid()
  {}

  lemma WorkerTakesItem(s: State)
    requires s.closing.Flushing? && s.closing.item
    ensures var t := ApplyWorkerStart(s);
            && t.closing == Flushing(s.closing.who, |s.passes| + 1, false) && t.wakers == s.wakers
            && s.passes <= t.passes
  {}

  /** Once every other pass has ended, flush_workqueue returns. */
  lemma FreeLast(s: State, t: State, n: nat) returns (u: State)
    requires Waiting(t) && n == t.closing.upTo && EndedUpTo(s, t, n, -1) && s.closing == t.closing
    ensures t.ring.Valid() && Enabled(t, OnCtx(Free)) && u == Apply(t, OnCtx(Free))
    ensures u.closing.Freed? && u.workQueued == t.workQueued
    ensures t.closing.who.ThePass? ==> t.closing.who.k < |u.passes| && !u.passes[t.closing.who.k].work.Done?
  {
    hide Inv, Covered, Count, UsedLookups;
    RingValid(t);
    u := ApplyFree(t);
  }

  /** From a state in which flush_workqueue is waiting: the run that frees the context. */
  lemma FreeAfter(s: State, steps: seq<Step>, n: nat) returns (more: seq<Step>)
    requires Waiting(s) && Possible(s, steps) && Waiting(After(s, steps)) && n == s.closing.upTo
    requires EndedUpTo(s, After(s, steps), n, -1)
    ensures Possible(s, more) && After(s, more).closing.Freed?
    ensures s.closing.who.ThePass? || After(s, steps).workQueued ==> !Finished(After(s, more))
  {
    hide Sound, Possible, After, Apply, Enabled;
    var t := After(s, steps);
    var u := FreeLast(s, t, n);
    OneMoreStep(s, steps, OnCtx(Free));
    more := steps + [OnCtx(Free)];
  }

  /** The worker dropped the last reference. */
  lemma WorkerStays(s: State) returns (more: seq<Step>)
    requires Waiting(s) && s.closing.who.ThePass?
    ensures Possible(s, more) && After(s, more).closing.Freed? && !Finished(After(s, more))
  {
    hide Sound, Possible, After, Finished;
    var steps := EndAll(s, s.closing.upTo, -1);
    more := FreeAfter(s, steps, s.closing.upTo);
  }

  /** Pass k queues the work again after flush_workqueue has begun. */
  lemma WorkerReturns(s: State, k: nat) returns (more: seq<Step>)
    requires Waiting(s) && k < s.closing.upTo && k < |s.passes| && s.passes[k].work.Requeueing?
    ensures Possible(s, more) && After(s, more).closing.Freed? && !Finished(After(s, more))
  {
    hide Sound, Possible, After, Finished;
    var steps := EndAll(s, s.closing.upTo, k);
    var t := After(s, steps);
    NotTheFreer(t, k);
    CanEnd(t, k);
    StepSound(t, Ended(t, k));
    OneMoreStep(s, steps, Ended(t, k));
    RequeueQueues(t, k);
    steps := steps + [Ended(t, k)];
    more := FreeAfter(s, steps, s.closing.upTo);
  }

  lemma NotTheFreer(s: State, k: nat)
    requires Waiting(s) && k < |s.passes| && s.passes[k].work.Requeueing?
    ensures s.closing.who != ThePass(k)
  {
    hide Inv, Covered;
  }

  lemma RequeueQueues(s: State, k: nat)
    requires s.ring.Valid() && k < |s.passes| && s.passes[k].work.Requeueing?
    ensures Ended(s, k) == OnPass(k, Requeue) && Enabled(s, Ended(s, k)) && Apply(s, Ended(s, k)).workQueued
  {}

  /** A kicker queues the work after flush_workqueue has begun. */
  lemma KickerQueues(s: State) returns (more: seq<Step>)
    requires Waiting(s) && s.wakers > 0
    ensures Possible(s, more) && After(s, more).closing.Freed? && !Finished(After(s, more))
  {
    hide Inv, Covered, ClosingOk, Possible, After, Finished, EndedUpTo;
    var steps := EndAll(s, s.closing.upTo, -1);
    var t := After(s, steps);
    EndedGives(s, t, s.closing.upTo, -1);
    RingValid(t);
    StepSound(t, OnCtx(KickWork));
    OneMoreStep(s, steps, OnCtx(KickWork));
    steps := steps + [OnCtx(KickWork)];
    KickWorkIs(t);
    EndedSame(s, t, ApplyKickWork(t), s.closing.upTo);
    more := FreeAfter(s, steps, s.closing.upTo);
  }

  lemma EndedGives(s: State, t: State, n: nat, keep: int)
    requires EndedUpTo(s, t, n, keep)
    ensures t.closing == s.closing && |t.passes| == |s.passes|
  {}

  lemma KickWorkIs(s: State)
    requires s.wakers > 0 && s.ring.Valid()
    ensures Apply(s, OnCtx(KickWork)) == ApplyKickWork(s)
    ensures ApplyKickWork(s).workQueued && ApplyKickWork(s).passes == s.passes && ApplyKickWork(s).closing == s.closing
  {}

  lemma EndedSame(s: State, t: State, u: State, n: nat)
    requires EndedUpTo(s, t, n, -1) && u.passes == t.passes && u.closing == t.closing
    ensures EndedUpTo(s, u, n, -1)
  {}

  /** Whatever is late leads to a freed context that the worker is still at or comes back to. */
  lemma LateRun(s: State) returns (more: seq<Step>)
    requires Sound(s) && s.closing.Stopping? && !NothingLate(s)
    ensures Possible(s, more) && After(s, more).closing.Freed? && !Finished(After(s, more))
  {
    hide Sound, Possible, After, Finished;
    var a := StartFlush(s);
    var t := After(s, a);
    var b: seq<Step>;
    if t.closing.who.ThePass? {
      b := WorkerStays(t);
    } else if t.wakers > 0 {
      b := KickerQueues(t);
    } else {
      var k: nat :| k < |s.passes| && s.passes[k].work.Requeueing?;
      assert t.passes[k] == s.passes[k];
      b := WorkerReturns(t, k);
    }
    OneAfterTheOther(s, a, b);
    more := a + b;
  }

  /** For every state in which the last reference has just gone: in all continuations the freed context is
      finished with, if and only if nothing is late. */
  lemma FreedForGoodIff(s: State, maxReqs: nat, filler: Event, steps: seq<Step>)
    requires Reached(s, maxReqs, filler, steps) && s.closing.Stopping?
    ensures (forall more: seq<Step> :: Possible(s, more) && After(s, more).closing.Freed? ==> Finished(After(s, more)))
       <==> NothingLate(s)
  {
    hide Reached, Inv, Covered, ClosingOk, Possible, After, Finished, Awaited;
    ReachedSound(s, maxReqs, filler, steps);
    if NothingLate(s) {
      AwaitedAtFirst(s);
      forall more: seq<Step> | Possible(s, more) && After(s, more).closing.Freed?
        ensures Finished(After(s, more))
      {
        AwaitedAlways(s, more);
        AwaitedFreed(After(s, more));
      }
    } else {
      var more := LateRun(s);
    }
  }

  lemma AwaitedAtFirst(s: State)
    requires s.closing.Stopping? && NothingLate(s)
    ensures Awaited(s)
  {}

  lemma AwaitedFreed(s: State)
    requires Sound(s) && Awaited(s) && s.closing.Freed?
    ensures Finished(s)
  {
    hide Inv, Covered;
  }
}
