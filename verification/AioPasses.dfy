/**
 Passes over the run list and the end of the context: who can still be at it when its last reference
 has gone, and when __put_ioctx, which waits for the worker, leaves nobody behind.
 */
module AioPasses {
  import opened AioRing
  import opened Aio
  import opened AioInvariant
  import opened AioSteps
  import opened AioTheorems

  /* ---- Counting passes ---- */

  lemma CountMore(passes: seq<Pass>, f: Pass -> bool, p: Pass)
    ensures Count(passes + [p], f) == Count(passes, f) + B(f(p))
  {
    assert (passes + [p])[..|passes|] == passes;
  }

  lemma {:induction false} CountSet(passes: seq<Pass>, f: Pass -> bool, k: nat, p: Pass)
    requires k < |passes|
    ensures Count(passes[k := p], f) == Count(passes, f) - B(f(passes[k])) + B(f(p))
  {
    var n := |passes| - 1;
    if k == n {
      assert passes[k := p][..n] == passes[..n];
    } else {
      assert passes[k := p][..n] == passes[..n][k := p];
      CountSet(passes[..n], f, k, p);
    }
  }

  lemma {:induction false} CountSame(a: seq<Pass>, b: seq<Pass>, f: Pass -> bool)
    requires |a| == |b| && forall k :: 0 <= k < |a| ==> f(a[k]) == f(b[k])
    ensures Count(a, f) == Count(b, f)
  {
    if a != [] { CountSame(a[..|a| - 1], b[..|b| - 1], f); }
  }

  lemma {:induction false} CountsOne(passes: seq<Pass>, f: Pass -> bool, k: nat)
    requires k < |passes| && f(passes[k])
    ensures Count(passes, f) > 0
  {
    if k < |passes| - 1 { CountsOne(passes[..|passes| - 1], f, k); }
  }

  /* ---- Who holds references ---- */

  predicate Frees(p: Pass) { p.work.Freeing? }

  /** Every caller that loops over the run list, copies an event or destroys the context holds a lookup,
      and every pass about to put the context holds the reference of a finished request. */
  predicate Covered(s: State) {
    && s.lookups >= UsedLookups(s) && s.reqPuts >= Count(s.passes, Puts)
    && (s.closing.Open? ==> Count(s.passes, Frees) == 0)
  }

  /** What Covered depends on is as before. */
  predicate Alike(s: State, t: State) {
    && t.lookups == s.lookups && t.reading == s.reading && t.destroyers == s.destroyers
    && Count(t.passes, Drains) == Count(s.passes, Drains)
    && t.reqPuts - Count(t.passes, Puts) >= s.reqPuts - Count(s.passes, Puts)
    && t.closing == s.closing && Count(t.passes, Frees) == Count(s.passes, Frees)
  }

  lemma PutAlike(s: State, i: nat, lastFile: bool)
    requires i < |s.reqs|
    ensures Alike(s, PutReq(s, i, lastFile))
    ensures s.reqs[i].users == 1 ==> PutReq(s, i, lastFile).reqPuts == s.reqPuts + 1
    ensures PutReq(s, i, lastFile).passes == s.passes
  {}

  lemma UnqueueAlike(s: State, i: nat)
    requires i < |s.reqs|
    ensures Alike(s, Unqueue(s, i)) && |Unqueue(s, i).reqs| == |s.reqs| && Unqueue(s, i).ring == s.ring
  {
    hide Count, Without;
    CountSame(s.passes, Unqueue(s, i).passes, Drains);
    CountSame(s.passes, Unqueue(s, i).passes, Puts);
    CountSame(s.passes, Unqueue(s, i).passes, Frees);
  }

  lemma AlikeTwice(s: State, t: State, u: State)
    requires Alike(s, t) && Alike(t, u)
    ensures Alike(s, u)
  {}

  lemma AlikeCovers(s: State, t: State)
    requires Covered(s) && Alike(s, t)
    ensures Covered(t) && t.closing == s.closing
  {}

  lemma CompleteAlike(s: State, i: nat, res: int, res2: int, lastFile: bool)
    requires i < |s.reqs| && s.ring.Valid()
    ensures Alike(s, Complete(s, i, res, res2, lastFile))
  {
    hide Count, PutReq, Unqueue;
    UnqueueAlike(s, i);
    var u := Unqueue(s, i);
    var e := Event(i, u.reqs[i].data, res, res2);
    var c := if u.reqs[i].cancelled then u else u.(ring := Push(u.ring, e), completed := u.completed + [e]);
    PutAlike(SetReq(c, i, c.reqs[i].(io := Consumed)), i, lastFile);
  }

  lemma SetPassAlike(s: State, k: nat, p: Pass)
    requires k < |s.passes| && Drains(p) == Drains(s.passes[k])
    requires Puts(p) == Puts(s.passes[k]) && Frees(p) == Frees(s.passes[k])
    ensures Alike(s, SetPass(s, k, p))
  {
    hide Count;
    CountSet(s.passes, Drains, k, p);
    CountSet(s.passes, Puts, k, p);
    CountSet(s.passes, Frees, k, p);
  }

  lemma SubmitQueueCovered(s: State, i: nat)
    requires i < |s.reqs| && FreeLookup(s) && Covered(s)
    ensures Covered(ApplySubmitQueue(s, i)) && ApplySubmitQueue(s, i).closing == s.closing
  {
    hide Count;
    StartCounts(s.passes, s.runList + [i], true);
  }

  lemma StartCounts(passes: seq<Pass>, todo: seq<nat>, drain: bool)
    ensures Count(passes + [Pass(todo, Idle, drain)], Drains) == Count(passes, Drains) + B(drain)
    ensures Count(passes + [Pass(todo, Idle, drain)], Puts) == Count(passes, Puts)
    ensures Count(passes + [Pass(todo, Idle, drain)], Frees) == Count(passes, Frees)
  {
    hide Count;
    CountMore(passes, Frees, Pass(todo, Idle, drain));
    CountMore(passes, Drains, Pass(todo, Idle, drain));
    CountMore(passes, Puts, Pass(todo, Idle, drain));
  }

  lemma KickAlike(s: State, i: nat)
    requires i < |s.reqs|
    ensures Alike(s, ApplyKickTest(s, i)) && (s.reqs[i].kickers > 0 ==> Alike(s, ApplyKickQueue(s, i)))
  {
    hide Count;
  }

  lemma SetAndPutAlike(s: State, i: nat, r: Req, lastFile: bool)
    requires i < |s.reqs|
    ensures Alike(s, PutReq(SetReq(s, i, r), i, lastFile))
  {
    hide Count, PutReq;
    PutAlike(SetReq(s, i, r), i, lastFile);
  }

  lemma SetReqAlike(s: State, i: nat, r: Req)
    requires i < |s.reqs|
    ensures Alike(s, SetReq(s, i, r))
  {
    hide Count;
  }

  lemma FputDoneAlike(s: State, i: nat)
    requires s.ring.Valid() && ReqEnabled(s, i, FputDone)
    ensures Alike(s, ApplyReq(s, i, FputDone))
  {
    hide Count;
  }

  lemma ReqStepCovered(s: State, i: nat, op: ReqOp)
    requires Covered(s) && s.ring.Valid() && ReqEnabled(s, i, op)
    ensures Covered(ApplyReq(s, i, op)) && ApplyReq(s, i, op).closing == s.closing
  {
    hide Covered, Alike, PutReq, SetReq, Complete, ApplySubmitQueue, ApplyKickQueue, ApplyKickTest;
    var r, t := s.reqs[i], ApplyReq(s, i, op);
    match op {
      case SubmitFail(lastFile) =>
        var q := if r.submitting then r.(submitting := false) else r.(unsubmitted := false, io := Consumed);
        SetAndPutAlike(s, i, q, lastFile);
      case SubmitQueue => SubmitQueueCovered(s, i);
      case KickTest => KickAlike(s, i);
      case KickQueue => KickAlike(s, i);
      case SubmitPut(lastFile) => SetAndPutAlike(s, i, r.(submitting := false), lastFile);
      case DriverComplete(res, res2, lastFile) => CompleteAlike(s, i, res, res2, lastFile);
      case Cancel =>
        SetReqAlike(s, i, r.(users := r.users + 1, cancelRefs := r.cancelRefs + 1, cancelled := true));
      case CancelDone(lastFile) => SetAndPutAlike(s, i, r.(cancelRefs := r.cancelRefs - 1), lastFile);
      case MarkCancelled => SetReqAlike(s, i, r.(cancelled := true));
      case FputDone => FputDoneAlike(s, i);
    }
    if !op.SubmitQueue? { AlikeCovers(s, t); }
  }

  lemma PickAlike(s: State, k: nat)
    requires PassEnabled(s, k, Pick)
    ensures Alike(s, ApplyPick(s, k))
  {
    hide Alike, PutReq, Picked;
    PickedAlike(s, k);
    PutAlike(Picked(s, k), s.passes[k].todo[0], false);
    AlikeTwice(s, Picked(s, k), PutReq(Picked(s, k), s.passes[k].todo[0], false));
  }

  lemma PickedPass(s: State, k: nat, q: Pass)
    requires PassEnabled(s, k, Pick)
    requires var p := s.passes[k];
             q == if s.reqs[p.todo[0]].retried > MAX_RETRIES then p.(todo := p.todo[1..])
                  else p.(todo := p.todo[1..], work := Running(p.todo[0], Entered))
    ensures var t := Picked(s, k);
            && t.passes == s.passes[k := q] && t.lookups == s.lookups && t.reading == s.reading
            && t.destroyers == s.destroyers && t.reqPuts == s.reqPuts && |t.reqs| == |s.reqs| && t.closing == s.closing
  {}

  lemma PickedAlike(s: State, k: nat)
    requires PassEnabled(s, k, Pick)
    ensures Alike(s, Picked(s, k)) && |Picked(s, k).reqs| == |s.reqs|
  {
    hide Count, Picked;
    var p := s.passes[k];
    var q := if s.reqs[p.todo[0]].retried > MAX_RETRIES then p.(todo := p.todo[1..])
             else p.(todo := p.todo[1..], work := Running(p.todo[0], Entered));
    PickedPass(s, k, q);
    CountSet(s.passes, Drains, k, q);
    CountSet(s.passes, Puts, k, q);
    CountSet(s.passes, Frees, k, q);
  }

  lemma FinishAlike(s: State, k: nat, lastFile: bool)
    requires PassEnabled(s, k, Finish(lastFile))
    ensures Alike(s, ApplyFinish(s, k, lastFile))
  {
    hide Alike, PutReq, Relink, Leave, Left;
    var r := s.reqs[s.passes[k].work.id];
    LeaveIs(s, k);
    RelinkIs(s, k);
    LeftAlike(s, k, r.(at := Nowhere), false, lastFile);
    LeftAlike(s, k, r.(link := SelfLinked, at := Nowhere), false, lastFile);
    LeftAlike(s, k, r.(link := Listed, at := Batch(|s.passes|)), true, lastFile);
  }

  /** The last put of a request is what its pass puts the context for. */
  lemma LeftAlike(s: State, k: nat, r: Req, queue: bool, lastFile: bool)
    requires Busy(s, k) && r.users == s.reqs[s.passes[k].work.id].users
    ensures |Left(s, k, r, queue).reqs| == |s.reqs|
    ensures Alike(s, PutReq(Left(s, k, r, queue), s.passes[k].work.id, lastFile))
  {
    hide Count, PutReq;
    var i := s.passes[k].work.id;
    var p := s.passes[k].(work := AfterPut(s.reqs[i]));
    CountSet(s.passes, Drains, k, p);
    CountSet(s.passes, Puts, k, p);
    CountSet(s.passes, Frees, k, p);
    PutAlike(Left(s, k, r, queue), i, lastFile);
  }

  lemma PassPutCovered(s: State, k: nat)
    requires Covered(s) && PassEnabled(s, k, PassPut)
    ensures Covered(ApplyPassPut(s, k))
  {
    hide Count;
    var p := s.passes[k].(work := if s.users == 1 then Freeing else Idle);
    CountSet(s.passes, Drains, k, p);
    CountSet(s.passes, Puts, k, p);
    CountSet(s.passes, Frees, k, p);
  }

  lemma EndPassCovered(s: State, k: nat)
    requires Covered(s) && PassEnabled(s, k, EndPass)
    ensures Covered(ApplyEndPass(s, k)) && ApplyEndPass(s, k).closing == s.closing
  {
    hide Count;
    var p := s.passes[k];
    if s.runList == [] {
      EndCounts(s.passes, k, Done);
    } else if p.drain {
      EndCounts(s.passes, k, Done);
      StartCounts(s.passes[k := p.(work := Done)], s.runList, true);
    } else {
      EndCounts(s.passes, k, Requeueing);
    }
  }

  lemma EndCounts(passes: seq<Pass>, k: nat, work: Work)
    requires k < |passes| && !Puts(passes[k]) && !work.Putting? && !passes[k].work.Done?
    ensures Count(passes[k := passes[k].(work := work)], Drains)
         == Count(passes, Drains) - B(passes[k].drain && work.Done?)
    ensures Count(passes[k := passes[k].(work := work)], Puts) == Count(passes, Puts)
    ensures Count(passes[k := passes[k].(work := work)], Frees)
         == Count(passes, Frees) - B(passes[k].work.Freeing?) + B(work.Freeing?)
  {
    hide Count;
    CountSet(passes, Frees, k, passes[k].(work := work));
    CountSet(passes, Drains, k, passes[k].(work := work));
    CountSet(passes, Puts, k, passes[k].(work := work));
  }

  lemma StageAlike(s: State, k: nat, stage: Stage)
    requires Busy(s, k)
    ensures Alike(s, SetStage(s, k, stage))
  {
    hide Alike;
    SetPassAlike(s, k, s.passes[k].(work := Running(s.passes[k].work.id, stage)));
  }

  lemma StageAndReqAlike(s: State, k: nat, stage: Stage, r: Req)
    requires Busy(s, k)
    ensures Alike(s, SetReq(SetStage(s, k, stage), s.passes[k].work.id, r))
  {
    hide Alike;
    StageAlike(s, k, stage);
    SetReqAlike(SetStage(s, k, stage), s.passes[k].work.id, r);
    AlikeTwice(s, SetStage(s, k, stage), SetReq(SetStage(s, k, stage), s.passes[k].work.id, r));
  }

  lemma RetryDoneAlike(s: State, k: nat, res: int, res2: int)
    requires Busy(s, k) && s.ring.Valid()
    ensures Alike(s, ApplyRetryDone(s, k, res, res2))
  {
    hide Alike, Complete;
    var t := SetStage(s, k, Returned(false));
    StageAlike(s, k, Returned(false));
    CompleteAlike(t, s.passes[k].work.id, res, res2, false);
    AlikeTwice(s, t, Complete(t, s.passes[k].work.id, res, res2, false));
  }

  lemma PassStepCovered(s: State, k: nat, op: PassOp)
    requires Covered(s) && s.ring.Valid() && PassEnabled(s, k, op)
    ensures Covered(ApplyPass(s, k, op)) && (op.PassPut? || ApplyPass(s, k, op).closing == s.closing)
  {
    hide Covered, Alike, SetStage, SetReq, SetPass, ApplyPick, ApplyRetryDone, ApplyFinish, ApplyEndPass, ApplyPassPut;
    var t := ApplyPass(s, k, op);
    match op {
      case Pick => PickAlike(s, k);
      case CheckCancelled =>
        StageAlike(s, k, Cancelling);
        StageAlike(s, k, Retrying);
      case CancelComplete => RetryDoneAlike(s, k, -EINTR, 0);
      case HandOff => StageAndReqAlike(s, k, HandedOff, s.reqs[s.passes[k].work.id].(io := Driver));
      case RetryDone(res, res2) => RetryDoneAlike(s, k, res, res2);
      case RetryAgain(noWaits) =>
        var r := s.reqs[s.passes[k].work.id];
        StageAndReqAlike(s, k, Returned(true), r.(kicked := r.kicked || noWaits));
      case RetryQueued => StageAlike(s, k, Returned(false));
      case Finish(lastFile) => FinishAlike(s, k, lastFile);
      case PassPut => PassPutCovered(s, k);
      case EndPass => EndPassCovered(s, k);
      case Requeue => RequeueCovered(s, k);
    }
    if !op.PassPut? && !op.EndPass? && !op.Requeue? { AlikeCovers(s, t); }
  }

  lemma RequeueCovered(s: State, k: nat)
    requires Covered(s) && s.ring.Valid() && PassEnabled(s, k, Requeue)
    ensures Covered(ApplyPass(s, k, Requeue)) && ApplyPass(s, k, Requeue).closing == s.closing
  {
    hide Count;
    EndCounts(s.passes, k, Done);
  }

  lemma StartCovered(s: State, t: State, drain: bool)
    requires Covered(s) && (drain ==> FreeLookup(s))
    requires t.passes == s.passes && t.lookups == s.lookups && t.reading == s.reading
    requires t.destroyers == s.destroyers && t.reqPuts == s.reqPuts && t.runList == s.runList
    requires t.closing.Open? ==> s.closing.Open?
    ensures Covered(StartPass(t, drain))
  {
    hide Count;
    StartCounts(s.passes, s.runList, drain);
  }

  /** A step that leaves the passes alone and takes no more than it may. */
  lemma SamePassesCovered(s: State, t: State)
    requires Covered(s) && t.passes == s.passes && (t.closing.Open? ==> s.closing.Open?)
    requires t.lookups - t.destroyers - B(t.reading.Copied?) >= s.lookups - s.destroyers - B(s.reading.Copied?)
          || t.lookups >= UsedLookups(t)
    requires t.reqPuts >= s.reqPuts || t.reqPuts >= Count(s.passes, Puts)
    ensures Covered(t)
  {
    hide Count;
  }

  lemma PutCovered(s: State, t: State)
    requires Covered(s) && t.passes == s.passes && t.closing == s.closing && t.reading == s.reading
    requires t.lookups >= UsedLookups(t) && t.reqPuts >= Count(s.passes, Puts)
    ensures Covered(PutCtx(t, SomebodyElse))
  {
    hide Count;
  }

  lemma CoveredGives(s: State)
    requires Covered(s)
    ensures s.lookups >= UsedLookups(s) && s.reqPuts >= Count(s.passes, Puts)
  {}

  lemma CtxStepCovered(s: State, op: CtxOp)
    requires Covered(s) && s.ring.Valid() && CtxEnabled(s, op)
    ensures Covered(ApplyCtx(s, op))
  {
    hide Covered, Count, ApplyGetReq, StartPass, ApplyFree, PutCtx;
    match op
    case GetReq(data) =>
      GetReqAlike(s, data);
      AlikeCovers(s, ApplyGetReq(s, data));
    case WorkerStart => StartCovered(s, s.(workQueued := false, closing := WorkerClosing(s)), false);
    case ReaderStart => StartCovered(s, s, true);
    case Free => FreeCovered(s);
    case LookupPut =>
      CoveredGives(s);
      PutCovered(s, s.(lookups := s.lookups - 1));
    case ListPut =>
      CoveredGives(s);
      PutCovered(s, s.(listPuts := s.listPuts - 1, listDrops := s.listDrops + 1));
    case DestroyPut =>
      CoveredGives(s);
      PutCovered(s, s.(lookups := s.lookups - 1, destroyers := s.destroyers - 1));
    case ReqPut =>
      CoveredGives(s);
      PutCovered(s, s.(reqPuts := s.reqPuts - 1));
    case _ => SamePassesCovered(s, ApplyCtx(s, op));
  }

  lemma GetReqAlike(s: State, data: int)
    requires s.ring.Valid()
    ensures Alike(s, ApplyGetReq(s, data))
  {}

  lemma FreeCovered(s: State)
    requires Covered(s) && s.closing.Flushing? && CallerWaits(s)
    ensures Covered(ApplyFree(s))
  {
    hide Count;
    if s.closing.who.ThePass? { EndCounts(s.passes, s.closing.who.k, Idle); }
  }

  lemma StepCovered(s: State, step: Step)
    requires Covered(s) && s.ring.Valid() && Enabled(s, step)
    ensures Covered(Apply(s, step))
  {
    hide Covered, ApplyReq, ApplyPass, ApplyCtx, ReqEnabled, PassEnabled, CtxEnabled;
    match step
    case OnReq(i, op) => ReqStepCovered(s, i, op);
    case OnPass(k, op) => PassStepCovered(s, k, op);
    case OnCtx(op) => CtxStepCovered(s, op);
  }

  lemma {:induction false} CoveredAlways(s: State, steps: seq<Step>)
    requires Covered(s) && Possible(s, steps)
    ensures Covered(After(s, steps))
    decreases |steps|
  {
    hide Covered, Apply, Enabled;
    if steps != [] {
      StepCovered(s, steps[0]);
      CoveredAlways(Apply(s, steps[0]), steps[1..]);
    }
  }
}
