/**
 The end of an I/O context: once its last reference has gone only the worker can be left, __put_ioctx
 waits for it, and the module says exactly when that is enough.
 */
module AioClosing {
  import opened AioRing
  import opened Aio
  import opened AioInvariant
  import opened AioSteps
  import opened AioTheorems
  import opened AioPasses

  /* ---- What is left without references ---- */

  /** A request nobody holds. */
  predicate Dead(r: Req) {
    && r.phase.Gone? && !r.link.SelfLinked? && !r.unsubmitted && !r.submitting && r.io.Consumed? && r.cancelRefs == 0
  }

  /** A pass that has no request in hand or ahead, and no reference to drop. */
  predicate Spent(p: Pass) {
    p.todo == [] && !p.work.Running? && !p.work.Putting? && (p.drain ==> p.work.Done?)
  }

  ghost predicate Deserted(s: State) {
    && s.users == 0 && s.lookups == 0 && s.destroyers == 0 && s.listPuts == 0 && s.reqPuts == 0 && s.reqsActive == 0
    && !s.onList && s.reading.NoRead? && s.fputs == [] && s.runList == []
    && (forall i: nat :: i < |s.reqs| ==> Dead(s.reqs[i]))
    && (forall k: nat :: k < |s.passes| ==> Spent(s.passes[k]))
  }

  lemma RequestDead(s: State, i: nat)
    requires Inv(s) && !s.closing.Open? && i < |s.reqs|
    ensures Dead(s.reqs[i])
  {
    hide Structure, Sum, Contents, EventsOk, FputsOk, WorkOk;
    SumAtLeast(s.reqs, Held, i);
    StructureHas(s, -1, i);
  }

  lemma PassSpent(s: State, k: nat)
    requires Inv(s) && Covered(s) && !s.closing.Open? && k < |s.passes|
    ensures Spent(s.passes[k])
  {
    hide Structure, Sum, Contents, EventsOk, FputsOk, WorkOk, ListOk, Count;
    var p := s.passes[k];
    PassHas(s, k);
    if p.work.Running? {
      RequestDead(s, p.work.id);
      StructureHas(s, -1, p.work.id);
    }
    if p.todo != [] {
      NextOf(p.todo, s.reqs, k);
      RequestDead(s, p.todo[0]);
      StructureHas(s, -1, p.todo[0]);
    }
    if Drains(p) { CountsOne(s.passes, Drains, k); }
    if Puts(p) { CountsOne(s.passes, Puts, k); }
  }

  /** Without references everybody but the worker has gone. */
  lemma NobodyLeft(s: State)
    requires Inv(s) && Covered(s) && !s.closing.Open?
    ensures Deserted(s)
  {
    NothingListed(s);
    NoFputs(s);
    hide Structure, Sum, Contents, EventsOk, FputsOk, WorkOk, Count, Dead, Spent;
    forall i: nat | i < |s.reqs| ensures Dead(s.reqs[i]) { RequestDead(s, i); }
    forall k: nat | k < |s.passes| ensures Spent(s.passes[k]) { PassSpent(s, k); }
  }

  lemma NoFputs(s: State)
    requires Inv(s) && !s.closing.Open?
    ensures s.fputs == []
  {
    hide Structure, Sum, Contents, EventsOk, WorkOk;
    if s.fputs != [] {
      FirstIsMember(s.fputs);
      RequestDead(s, s.fputs[0]);
    }
  }

  /** What can still happen: the worker's passes come to their end, its work item is queued and taken,
      a late kicker finds nothing to queue, and __put_ioctx goes on. */
  predicate Remaining(step: Step) {
    match step
    case OnReq(_, op) => op.KickQueue?
    case OnPass(_, op) => op.EndPass? || op.Requeue?
    case OnCtx(op) => op.WorkerStart? || op.KickWork? || op.TimerFires? || op.CancelWork? || op.Free?
  }

  lemma OnlyTheWorker(s: State, step: Step)
    requires Deserted(s) && Enabled(s, step)
    ensures Remaining(step)
  {
    match step
    case OnReq(i, op) => assert Dead(s.reqs[i]);
    case OnPass(k, op) => assert Spent(s.passes[k]);
    case OnCtx(op) =>
  }

  /* ---- What __put_ioctx and the worker keep ---- */

  /** The pass that dropped the last reference, if it was one, is the worker's and among the first n. */
  predicate WhoOk(who: Who, passes: seq<Pass>, n: nat) {
    who.ThePass? ==> who.k < n && who.k < |passes| && !passes[who.k].drain
  }

  /** Exactly that pass waits for __put_ioctx. */
  ghost predicate FreerIs(passes: seq<Pass>, who: Who) {
    forall k: nat :: k < |passes| ==> (passes[k].work.Freeing? <==> who == ThePass(k))
  }

  /** Passes that flush_workqueue does not wait for are the worker's. */
  ghost predicate LateOk(passes: seq<Pass>, upTo: nat) {
    upTo <= |passes| && forall k: nat :: upTo <= k < |passes| ==> !passes[k].drain
  }

  ghost predicate ClosingOk(s: State) {
    match s.closing
    case Open => true
    case Stopping(who) => FreerIs(s.passes, who) && WhoOk(who, s.passes, |s.passes|)
    case Flushing(who, upTo, item) =>
      && FreerIs(s.passes, who) && WhoOk(who, s.passes, upTo) && LateOk(s.passes, upTo)
      && (item ==> s.workQueued && !s.timer && upTo == |s.passes|)
    case Freed(who, upTo) =>
      && FreerIs(s.passes, SomebodyElse) && WhoOk(who, s.passes, upTo) && LateOk(s.passes, upTo)
      && forall k: nat :: k < upTo ==> who == ThePass(k) || s.passes[k].work.Done?
  }

  ghost predicate Sound(s: State) { Inv(s) && Covered(s) && ClosingOk(s) }

  lemma NoFreer(passes: seq<Pass>)
    requires Count(passes, Frees) == 0
    ensures FreerIs(passes, SomebodyElse)
  {
    forall k: nat | k < |passes| ensures !passes[k].work.Freeing? {
      if Frees(passes[k]) { CountsOne(passes, Frees, k); }
    }
  }

  /** A pass that drops the last reference is the worker's: everybody else still holds a lookup. */
  lemma LastPutIsTheWorkers(s: State, k: nat)
    requires Inv(s) && Covered(s) && PassEnabled(s, k, PassPut) && s.users == 1
    ensures !s.passes[k].drain && FreerIs(s.passes, SomebodyElse)
  {
    hide Structure, Sum, Contents, EventsOk, FputsOk, WorkOk, Count;
    if Drains(s.passes[k]) { CountsOne(s.passes, Drains, k); }
    NoFreer(s.passes);
  }

  lemma PassPutCloses(s: State, k: nat)
    requires Inv(s) && Covered(s) && s.closing.Open? && PassEnabled(s, k, PassPut)
    ensures ClosingOk(ApplyPassPut(s, k))
  {
    if s.users == 1 { LastPutIsTheWorkers(s, k); }
  }

  lemma OpenStep(s: State, step: Step)
    requires Inv(s) && Covered(s) && s.closing.Open? && s.ring.Valid() && Enabled(s, step)
    ensures ClosingOk(Apply(s, step))
  {
    hide Inv, Covered, ApplyReq, ApplyPass, ApplyCtx, ReqEnabled, PassEnabled;
    match step
    case OnReq(i, op) => ReqStepCovered(s, i, op);
    case OnPass(k, op) =>
      PassStepCovered(s, k, op);
      if op.PassPut? {
        PassPutCloses(s, k);
        PassPutIs(s, k);
      }
    case OnCtx(op) => OpenCtxStep(s, op);
  }

  lemma PassPutIs(s: State, k: nat)
    requires s.ring.Valid() && PassEnabled(s, k, PassPut)
    ensures ApplyPass(s, k, PassPut) == ApplyPassPut(s, k)
  {}

  lemma OpenCtxStep(s: State, op: CtxOp)
    requires Covered(s) && s.closing.Open? && s.ring.Valid() && CtxEnabled(s, op)
    ensures ClosingOk(ApplyCtx(s, op))
  {
    hide Count, UsedLookups, LateOk, WhoOk;
    NoFreer(s.passes);
    NobodySpecial(s.passes);
  }

  lemma NobodySpecial(passes: seq<Pass>)
    ensures WhoOk(SomebodyElse, passes, |passes|)
  {}

  /** A pass that is at its end, on a deserted context. */
  lemma EndPassIs(s: State, k: nat)
    requires Deserted(s) && PassEnabled(s, k, EndPass)
    ensures ApplyEndPass(s, k) == SetPass(s, k, s.passes[k].(work := Done))
  {}

  lemma KickQueueIs(s: State, i: nat)
    requires Deserted(s) && ReqEnabled(s, i, KickQueue)
    ensures ApplyKickQueue(s, i) == SetReq(s, i, s.reqs[i].(kickers := s.reqs[i].kickers - 1))
  {
    assert Dead(s.reqs[i]);
  }

  /** Pass k comes to its end. */
  lemma StopOk(s: State, k: nat, t: State)
    requires ClosingOk(s) && !s.closing.Open? && k < |s.passes| && !s.passes[k].work.Freeing?
    requires t.passes == s.passes[k := s.passes[k].(work := Done)] && t.closing == s.closing
    requires s.workQueued ==> t.workQueued
    requires t.timer == s.timer
    ensures ClosingOk(t)
  {}

  lemma FreeOk(s: State)
    requires ClosingOk(s) && Deserted(s) && Flushed(s)
    ensures ClosingOk(ApplyFree(s))
  {
    var t := ApplyFree(s);
    var upTo := s.closing.upTo;
    forall k: nat | k < upTo && s.closing.who != ThePass(k) ensures t.passes[k].work.Done? {
      assert Spent(s.passes[k]) && Over(s.passes[k]);
    }
  }

  lemma WorkerStartOk(s: State)
    requires ClosingOk(s) && !s.closing.Open? && s.workQueued
    ensures ClosingOk(ApplyWorkerStart(s))
  {
    var p := Pass(s.runList, Idle, false);
    assert forall k: nat :: k < |s.passes| ==> (s.passes + [p])[k] == s.passes[k];
  }

  lemma SameClosing(s: State, t: State)
    requires ClosingOk(s) && t.passes == s.passes && t.closing == s.closing
    requires s.workQueued && !s.timer ==> t.workQueued && !t.timer
    ensures ClosingOk(t)
  {}

  lemma CancelWorkOk(s: State)
    requires ClosingOk(s) && s.closing.Stopping?
    ensures ClosingOk(ApplyCancelWork(s))
  {}

  lemma ClosedStep(s: State, step: Step)
    requires ClosingOk(s) && Deserted(s) && !s.closing.Open? && s.ring.Valid() && Enabled(s, step)
    ensures ClosingOk(Apply(s, step))
  {
    hide Deserted, ClosingOk, ApplyEndPass, ApplyFree, ApplyWorkerStart, ApplyKickQueue, Count, UsedLookups;
    OnlyTheWorker(s, step);
    match step
    case OnReq(i, op) =>
      KickQueueIs(s, i);
      SameClosing(s, ApplyKickQueue(s, i));
    case OnPass(k, op) =>
      if op.EndPass? { EndPassIs(s, k); }
      StopOk(s, k, ApplyPass(s, k, op));
    case OnCtx(op) =>
      match op
      case WorkerStart => WorkerStartOk(s);
      case CancelWork => CancelWorkOk(s);
      case Free => FreeOk(s);
      case KickWork => SameClosing(s, ApplyCtx(s, op));
      case TimerFires => SameClosing(s, ApplyCtx(s, op));
      case _ =>
  }

  lemma StepSound(s: State, step: Step)
    requires Sound(s) && s.ring.Valid() && Enabled(s, step)
    ensures Sound(Apply(s, step))
  {
    hide Inv, Covered, ClosingOk, Apply, Enabled, Deserted;
    StepKeeps(s, step);
    StepCovered(s, step);
    if s.closing.Open? {
      OpenStep(s, step);
    } else {
      NobodyLeft(s);
      ClosedStep(s, step);
    }
  }

  lemma {:induction false} SoundAlways(s: State, steps: seq<Step>)
    requires Sound(s) && Possible(s, steps)
    ensures Sound(After(s, steps))
    decreases |steps|
  {
    hide Sound, Apply, Enabled;
    if steps != [] {
      StepSound(s, steps[0]);
      SoundAlways(Apply(s, steps[0]), steps[1..]);
    }
  }

  lemma ReachedSound(s: State, maxReqs: nat, filler: Event, steps: seq<Step>)
    requires Reached(s, maxReqs, filler, steps)
    ensures Sound(s)
  {
    hide Possible, After, Inv;
    InitInv(maxReqs, filler);
    SoundAlways(Init(maxReqs, filler), steps);
  }

  /* ---- Passes on a freed context ---- */

  /** On a freed context no pass has a request in hand or ahead or a reference to drop; one that is not
      over is the worker's, and it dropped the last reference itself or began after flush_workqueue. */
  lemma PassesOfFreed(s: State, maxReqs: nat, filler: Event, steps: seq<Step>, k: nat)
    requires Reached(s, maxReqs, filler, steps) && s.closing.Freed? && k < |s.passes|
    ensures Spent(s.passes[k]) && !s.passes[k].work.Freeing?
    ensures !s.passes[k].work.Done? ==>
              !s.passes[k].drain && (s.closing.who == ThePass(k) || k >= s.closing.upTo)
  {
    hide Reached, Inv, Covered;
    ReachedSound(s, maxReqs, filler, steps);
    PassSpent(s, k);
  }

  /** At the moment the context is freed, a pass that flush_workqueue had to wait for is not over if and
      only if it is the one that dropped the last reference; and that one is the worker's. */
  lemma NotOverIff(s: State, maxReqs: nat, filler: Event, steps: seq<Step>, k: nat)
    requires Reached(s, maxReqs, filler, steps) && Flushed(s) && k < s.closing.upTo
    ensures k < |s.passes| && CallerWaits(s)
    ensures !ApplyFree(s).passes[k].work.Done? <==> s.closing.who == ThePass(k)
    ensures s.closing.who == ThePass(k) ==> !s.passes[k].drain
  {
    hide Reached, Inv, Covered, Deserted;
    ReachedSound(s, maxReqs, filler, steps);
    NobodyLeft(s);
    FreeOk(s);
  }

  /* ---- When nobody comes back ---- */

  /** No pass is under way, and no work is queued that would start one. */
  ghost predicate Finished(s: State) {
    !s.workQueued && forall k: nat :: k < |s.passes| ==> s.passes[k].work.Done?
  }

  /** When the last reference goes: it is not the worker that drops it, no pass of the worker is about to
      queue the work again, and no kicker is. */
  ghost predicate NothingLate(s: State)
    requires !s.closing.Open?
  {
    s.closing.who.SomebodyElse? && s.wakers == 0 && forall k: nat :: k < |s.passes| ==> !s.passes[k].work.Requeueing?
  }

  /** Everything that may still run is something flush_workqueue waits for. */
  ghost predicate Awaited(s: State) {
    && !s.closing.Open? && NothingLate(s)
    && match s.closing
       case Flushing(_, upTo, item) => upTo == |s.passes| && (s.workQueued ==> item) && !s.timer
       case Freed(_, upTo) => upTo == |s.passes| && !s.workQueued && !s.timer
       case _ => true
  }

  lemma StopAwaited(s: State, k: nat, t: State)
    requires Awaited(s) && k < |s.passes| && t.passes == s.passes[k := s.passes[k].(work := Done)]
    requires t.closing == s.closing && t.wakers == s.wakers && t.workQueued == s.workQueued && t.timer == s.timer
    ensures Awaited(t)
  {}

  lemma CtxAwaited(s: State, op: CtxOp)
    requires Awaited(s) && s.ring.Valid() && CtxEnabled(s, op)
    requires op.WorkerStart? || op.KickWork? || op.TimerFires? || op.CancelWork?
    ensures Awaited(ApplyCtx(s, op))
  {}

  lemma FreeAwaited(s: State)
    requires Awaited(s) && Flushed(s)
    ensures Awaited(ApplyFree(s))
  {}

  lemma StepAwaited(s: State, step: Step)
    requires Deserted(s) && Awaited(s) && s.ring.Valid() && Enabled(s, step)
    ensures Awaited(Apply(s, step))
  {
    hide Deserted, Awaited, ApplyEndPass, ApplyFree, ApplyKickQueue, ApplyCtx, Flushed;
    OnlyTheWorker(s, step);
    match step
    case OnReq(i, op) =>
      KickQueueIs(s, i);
      SameAwaited(s, ApplyKickQueue(s, i));
    case OnPass(k, op) =>
      NoRequeue(s, k);
      if op.EndPass? {
        EndPassIs(s, k);
        StopAwaited(s, k, ApplyEndPass(s, k));
      }
    case OnCtx(op) =>
      if op.Free? {
        FreeAwaited(s);
        FreeIs(s);
      } else {
        CtxAwaited(s, op);
      }
  }

  lemma SameAwaited(s: State, t: State)
    requires Awaited(s) && t.passes == s.passes && t.closing == s.closing
    requires t.wakers == s.wakers && t.workQueued == s.workQueued && t.timer == s.timer
    ensures Awaited(t)
  {}

  lemma NoRequeue(s: State, k: nat)
    requires Awaited(s) && k < |s.passes|
    ensures !PassEnabled(s, k, Requeue)
  {}

  lemma FreeIs(s: State)
    requires s.ring.Valid() && Flushed(s)
    ensures ApplyCtx(s, Free) == ApplyFree(s)
  {}

  lemma {:induction false} AwaitedAlways(s: State, steps: seq<Step>)
    requires Sound(s) && Awaited(s) && Possible(s, steps)
    ensures Sound(After(s, steps)) && Awaited(After(s, steps))
    decreases |steps|
  {
    hide Inv, Covered, ClosingOk, Awaited, Apply, Enabled, Deserted;
    if steps != [] {
      OnceClosed(s);
      NobodyLeft(s);
      StepAwaited(s, steps[0]);
      StepSound(s, steps[0]);
      AwaitedAlways(Apply(s, steps[0]), steps[1..]);
    }
  }

  lemma OnceClosed(s: State)
    requires Awaited(s)
    ensures !s.closing.Open?
  {}
}
