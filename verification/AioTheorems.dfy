/** What the invariant means for users of the I/O context. */
module AioTheorems {
  import opened AioRing
  import opened Aio
  import opened AioInvariant
  import opened AioSteps

  /** A state some run of some context leads to. */
  ghost predicate Reached(s: State, maxReqs: nat, filler: Event, steps: seq<Step>) {
    Possible(Init(maxReqs, filler), steps) && s == After(Init(maxReqs, filler), steps)
  }

  lemma ReachedInv(s: State, maxReqs: nat, filler: Event, steps: seq<Step>)
    requires Reached(s, maxReqs, filler, steps)
    ensures Inv(s)
  {
    hide Inv, Possible, After, Init;
    InitInv(maxReqs, filler);
    Always(Init(maxReqs, filler), steps);
  }

  /** The ring is the queue of the completions not yet reaped; requests that may still complete
      and unread events together never fill it. */
  lemma RingIsQueue(s: State, maxReqs: nat, filler: Event, steps: seq<Step>)
    requires Reached(s, maxReqs, filler, steps)
    ensures s.ring.Valid() && s.completed == s.reaped + Contents(s.ring)
    ensures Sum(s.reqs, Unconsumed) + Unread(s.ring) <= s.ring.nr - 1
  {
    hide Reached, Structure, WorkOk, Contents, Sum;
    ReachedInv(s, maxReqs, filler, steps);
  }

  /** What a reader reaps is the oldest completion not reaped before. */
  lemma ReaderGetsOldest(s: State, maxReqs: nat, filler: Event, steps: seq<Step>)
    requires Reached(s, maxReqs, filler, steps) && s.reading.Copied?
    ensures |s.reaped| < |s.completed| && s.reading.event == s.completed[|s.reaped|]
  {
    hide Reached, Structure, WorkOk, Contents, Sum;
    ReachedInv(s, maxReqs, filler, steps);
  }

  /** No request is retried by two passes at once, and none is on a run list while it is retried. */
  lemma OneRetryAtATime(s: State, maxReqs: nat, filler: Event, steps: seq<Step>, k: nat, l: nat)
    requires Reached(s, maxReqs, filler, steps) && k < |s.passes| && l < |s.passes|
    requires s.passes[k].work.Running?
    ensures k != l && s.passes[l].work.Running? ==> s.passes[k].work.id != s.passes[l].work.id
    ensures s.passes[k].work.id !in s.runList && s.passes[k].work.id !in s.passes[l].todo
  {
    hide Reached, Ledger, WorkOk;
    ReachedInv(s, maxReqs, filler, steps);
    PassHas(s, k);
    PassHas(s, l);
  }

  /** A set kicked flag of a request the engine owns means that it is queued exactly once, is being
      retried, or has a kicker between test-and-set and queueing. */
  lemma KickedIsRemembered(s: State, maxReqs: nat, filler: Event, steps: seq<Step>, i: nat)
    requires Reached(s, maxReqs, filler, steps) && i < |s.reqs| && s.reqs[i].io.Engine?
    requires s.reqs[i].kicked || s.reqs[i].owed
    ensures match s.reqs[i].at
            case Nowhere => s.reqs[i].kickers > 0
            case Batch(k) => k <= |s.passes| && i in (if k == |s.passes| then s.runList else s.passes[k].todo)
            case In(k) => k < |s.passes| && s.passes[k].work.Running? && s.passes[k].work.id == i
  {
    hide Reached, Ledger, WorkOk;
    ReachedInv(s, maxReqs, filler, steps);
    StructureHas(s, -1, i);
    if s.reqs[i].at.Batch? && s.reqs[i].at.k < |s.passes| { PassHas(s, s.reqs[i].at.k); }
  }

  /** No work queued, no pass running, no kicker on its way. */
  ghost predicate Quiet(s: State) {
    && !s.workQueued && s.wakers == 0 && !SomeActive(s.passes)
    && forall i: nat :: i < |s.reqs| ==> s.reqs[i].kickers == 0
  }

  /** No kick is lost: when everything has come to rest, each submitted request that the engine
      still owns has been retried since its last kick and waits for another one. */
  lemma NoLostKick(s: State, maxReqs: nat, filler: Event, steps: seq<Step>, i: nat)
    requires Reached(s, maxReqs, filler, steps) && Quiet(s)
    requires i < |s.reqs| && s.reqs[i].io.Engine? && !s.reqs[i].unsubmitted
    ensures !s.reqs[i].owed && !s.reqs[i].kicked && s.reqs[i].link.SelfLinked?
  {
    hide Reached, Structure, Ledger, WorkOk;
    ReachedInv(s, maxReqs, filler, steps);
    StructureHas(s, -1, i);
    AllDone(s);
  }

  /** With every pass done, no request is in a batch that a pass has taken or in a pass. */
  lemma AllDone(s: State)
    requires Inv(s) && Quiet(s)
    ensures s.runList == []
    ensures forall i: nat :: i < |s.reqs| ==> s.reqs[i].at.Nowhere?
  {
    forall k: nat | k < |s.passes| ensures s.passes[k].work.Done? && s.passes[k].todo == [] { PassHas(s, k); }
    forall i: nat | i < |s.reqs| ensures s.reqs[i].at.Nowhere? {
      StructureHas(s, -1, i);
      if s.reqs[i].at.Batch? && s.reqs[i].at.k < |s.passes| { PassHas(s, s.reqs[i].at.k); }
    }
  }

  /** ki_users counts the references held and is positive whenever one is dropped. */
  lemma UsersArePositive(s: State, maxReqs: nat, filler: Event, steps: seq<Step>, i: nat)
    requires Reached(s, maxReqs, filler, steps) && i < |s.reqs|
    ensures s.reqs[i].users == Refs(s.reqs[i]) && (s.reqs[i].phase.Live? <==> s.reqs[i].users > 0)
  {
    hide Reached, Structure, Ledger, WorkOk;
    ReachedInv(s, maxReqs, filler, steps);
    StructureHas(s, -1, i);
  }

  /** The count of the context is that of the references held: the list's and its pending put, lookups,
      pending puts of finished requests, and active requests.  When the last one goes, no request is
      active, so the BUG in __put_ioctx cannot be hit; and nobody is left who could look it up. */
  lemma FreedMeansIdle(s: State, maxReqs: nat, filler: Event, steps: seq<Step>)
    requires Reached(s, maxReqs, filler, steps)
    ensures s.users == B(s.onList) + s.listPuts + s.lookups + s.reqPuts + s.reqsActive && s.reqsActive >= 0
    ensures s.closing.Open? <==> s.users > 0
    ensures s.users == 0 ==> s.reqsActive == 0 && s.lookups == 0 && s.reqPuts == 0 && s.fputs == [] && s.runList == []
    ensures s.users == 0 ==> !s.onList && s.dead && s.reading.NoRead?
    ensures s.users == 0 ==> forall i: nat :: i < |s.reqs| ==> s.reqs[i].phase.Gone?
  {
    hide Reached, WorkOk, Sum, Contents, PassesOk;
    ReachedInv(s, maxReqs, filler, steps);
    if s.users == 0 {
      forall i: nat | i < |s.reqs| ensures s.reqs[i].phase.Gone? { SumAtLeast(s.reqs, Held, i); }
      if s.fputs != [] { FirstIsMember(s.fputs); }
      if s.runList != [] { FirstIsMember(s.runList); StructureHas(s, -1, s.runList[0]); }
    }
  }

  lemma FirstIsMember(q: seq<nat>)
    requires q != []
    ensures q[0] in q
  {}

  /** However many callers destroy the context at once, its list reference is dropped at most once,
      and exactly once by the time its last reference goes. */
  lemma ListDroppedOnce(s: State, maxReqs: nat, filler: Event, steps: seq<Step>)
    requires Reached(s, maxReqs, filler, steps)
    ensures s.listDrops + s.listPuts <= 1 && (s.listDrops + s.listPuts == 0 <==> s.onList)
    ensures s.users == 0 ==> s.listDrops == 1
  {
    hide Reached, Structure, WorkOk, Contents, Sum;
    ReachedInv(s, maxReqs, filler, steps);
  }

  /** A request is given up only at the attempt after 1024 * 1024 + 1 retries were started, and never later. */
  lemma RetryCap(s: State, maxReqs: nat, filler: Event, steps: seq<Step>, i: nat)
    requires Reached(s, maxReqs, filler, steps) && i < |s.reqs|
    ensures s.reqs[i].io.Abandoned? <==> s.reqs[i].retried == MAX_RETRIES + 2
    ensures s.reqs[i].starts <= MAX_RETRIES + 1 && (s.reqs[i].io.Abandoned? ==> s.reqs[i].starts == MAX_RETRIES + 1)
    ensures s.reqs[i].retried <= MAX_RETRIES + 2
  {
    hide Reached, Structure, Ledger, WorkOk;
    ReachedInv(s, maxReqs, filler, steps);
    StructureHas(s, -1, i);
  }

  lemma PutSize(s: State, i: nat, lastFile: bool)
    requires i < |s.reqs|
    ensures PutReq(s, i, lastFile).ring == s.ring
  {}

  lemma CompleteSize(s: State, i: nat, res: int, res2: int, lastFile: bool)
    requires i < |s.reqs| && s.ring.Valid()
    ensures Complete(s, i, res, res2, lastFile).ring.nr == s.ring.nr
  {
    hide PutReq, Unqueue;
    UnqueueSize(s, i);
    var u := Unqueue(s, i);
    var e := Event(i, u.reqs[i].data, res, res2);
    var c := if u.reqs[i].cancelled then u else u.(ring := Push(u.ring, e), completed := u.completed + [e]);
    PutSize(SetReq(c, i, c.reqs[i].(io := Consumed)), i, lastFile);
  }

  lemma UnqueueSize(s: State, i: nat)
    requires i < |s.reqs|
    ensures Unqueue(s, i).ring == s.ring && |Unqueue(s, i).reqs| == |s.reqs|
  {
    hide Without;
  }

  lemma QueueSize(s: State, i: nat)
    requires i < |s.reqs|
    ensures QueueKicked(s, i).ring == s.ring
  {}

  lemma ReqStepSize(s: State, i: nat, op: ReqOp)
    requires s.ring.Valid() && ReqEnabled(s, i, op)
    ensures ApplyReq(s, i, op).ring.nr == s.ring.nr
  {
    hide Complete, PutReq, QueueKicked;
    var r := s.reqs[i];
    match op
    case SubmitFail(lastFile) =>
      PutSize(SetReq(s, i, r.(submitting := false)), i, lastFile);
      PutSize(SetReq(s, i, r.(unsubmitted := false, io := Consumed)), i, lastFile);
    case SubmitPut(lastFile) => PutSize(SetReq(s, i, r.(submitting := false)), i, lastFile);
    case DriverComplete(res, res2, lastFile) => CompleteSize(s, i, res, res2, lastFile);
    case CancelDone(lastFile) => PutSize(SetReq(s, i, r.(cancelRefs := r.cancelRefs - 1)), i, lastFile);
    case KickQueue => QueueSize(SetReq(s, i, r.(kickers := r.kickers - 1)), i);
    case _ =>
  }

  lemma PassStepSize(s: State, k: nat, op: PassOp)
    requires s.ring.Valid() && PassEnabled(s, k, op)
    ensures ApplyPass(s, k, op).ring.nr == s.ring.nr
  {
    hide Complete, Picked, PutReq, Relink, Leave;
    match op
    case Pick => PickSize(s, k);
    case CancelComplete => CompleteSize(SetStage(s, k, Returned(false)), s.passes[k].work.id, -EINTR, 0, false);
    case RetryDone(res, res2) => CompleteSize(SetStage(s, k, Returned(false)), s.passes[k].work.id, res, res2, false);
    case Finish(lastFile) => FinishSize(s, k, lastFile);
    case _ =>
  }

  lemma PickSize(s: State, k: nat)
    requires PassEnabled(s, k, Pick)
    ensures ApplyPick(s, k).ring == s.ring
  {
    hide PutReq;
    PutSize(Picked(s, k), s.passes[k].todo[0], false);
  }

  lemma FinishSize(s: State, k: nat, lastFile: bool)
    requires PassEnabled(s, k, Finish(lastFile))
    ensures ApplyFinish(s, k, lastFile).ring == s.ring
  {
    hide PutReq, Relink, Leave;
    LeaveIs(s, k);
    RelinkIs(s, k);
    var i := s.passes[k].work.id;
    PutSize(if s.passes[k].work.stage.again then Relink(Leave(s, k), i) else Leave(s, k), i, lastFile);
  }

  /** Puts, new passes and the end of the context leave the ring alone. */
  lemma RingKept(s: State)
    ensures forall who :: PutCtx(s, who).ring == s.ring
    ensures forall drain :: StartPass(s, drain).ring == s.ring
    ensures s.closing.Flushing? && CallerWaits(s) ==> ApplyFree(s).ring == s.ring
  {}

  lemma CtxStepSize(s: State, op: CtxOp)
    requires s.ring.Valid() && CtxEnabled(s, op)
    ensures ApplyCtx(s, op).ring.nr == s.ring.nr
  {
    hide DestroyerReady, Flushed, Count, PutCtx, StartPass, ApplyFree;
    match op
    case WorkerStart => RingKept(s.(workQueued := false, closing := WorkerClosing(s)));
    case ReaderStart => RingKept(s);
    case LookupPut => RingKept(s.(lookups := s.lookups - 1));
    case ListPut => RingKept(s.(listPuts := s.listPuts - 1, listDrops := s.listDrops + 1));
    case DestroyPut =>
      DestroyerKnown(s);
      RingKept(s.(lookups := s.lookups - 1, destroyers := s.destroyers - 1));
    case ReqPut => RingKept(s.(reqPuts := s.reqPuts - 1));
    case Free =>
      FlushedKnown(s);
      RingKept(s);
    case _ =>
  }

  lemma FlushedKnown(s: State)
    requires Flushed(s)
    ensures s.closing.Flushing? && CallerWaits(s)
  {}

  /** The size of the ring never changes. */
  lemma SizeKept(s: State, step: Step)
    requires s.ring.Valid() && Enabled(s, step)
    ensures Apply(s, step).ring.nr == s.ring.nr
  {
    hide ApplyReq, ApplyPass, ApplyCtx, ReqEnabled, PassEnabled, CtxEnabled;
    match step
    case OnReq(i, op) => ReqStepSize(s, i, op);
    case OnPass(k, op) => PassStepSize(s, k, op);
    case OnCtx(op) => CtxStepSize(s, op);
  }

  lemma {:induction false} SizeAlways(s: State, steps: seq<Step>)
    requires Possible(s, steps)
    ensures After(s, steps).ring.nr == s.ring.nr
    decreases |steps|
  {
    hide Enabled, Apply;
    if steps != [] {
      SizeKept(s, steps[0]);
      SizeAlways(Apply(s, steps[0]), steps[1..]);
    }
  }

  /** A context set up for maxReqs requests admits a request whenever those active and the events
      unread are no more than that. */
  lemma AdmitsAsPromised(s: State, maxReqs: nat, filler: Event, steps: seq<Step>, data: int)
    requires Reached(s, maxReqs, filler, steps) && s.ring.Valid() && s.reqsActive + Unread(s.ring) <= maxReqs
    ensures var t := ApplyGetReq(s, data);
            t.reqsActive == s.reqsActive + 1 && |t.reqs| == |s.reqs| + 1 && t.reqs[|s.reqs|].data == data
  {
    hide Possible, After;
    SizeAlways(Init(maxReqs, filler), steps);
    AvailIsFree(s.ring);
  }
}
