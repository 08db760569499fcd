/** What the steps of a run of the I/O context report, admit, cancel, count and start. */
module AioReports {
  import opened AioRing
  import opened Aio
  import opened AioInvariant
  import opened AioSteps
  import opened AioTheorems

  /* ---- What a step says ---- */

  /** Pass k has request j in hand. */
  predicate InHand(s: State, k: nat, j: nat) {
    k < |s.passes| && s.passes[k].work.Running? && s.passes[k].work.id == j
  }

  /** The event of a completing step: the request's user data and the two results, and nothing if the request
      has been cancelled. */
  function EventOf(s: State, step: Step): seq<Event>
    requires Enabled(s, step)
  {
    match step
    case OnReq(i, DriverComplete(res, res2, _)) =>
      if s.reqs[i].cancelled then [] else [Event(i, s.reqs[i].data, res, res2)]
    case OnPass(k, RetryDone(res, res2)) =>
      var i := s.passes[k].work.id;
      if s.reqs[i].cancelled then [] else [Event(i, s.reqs[i].data, res, res2)]
    case _ => []
  }

  /** The user data of the request a step admits. */
  function DataOf(s: State, step: Step): seq<int>
    requires s.ring.Valid()
  {
    match step
    case OnCtx(GetReq(data)) => if s.reqsActive < Avail(s.ring) then [data] else []
    case _ => []
  }

  predicate Cancels(step: Step, j: nat) { step == OnReq(j, Cancel) || step == OnReq(j, MarkCancelled) }

  /** The references to request j that a step takes or drops. */
  function UsersDelta(s: State, step: Step, j: nat): int
    requires Enabled(s, step)
  {
    match step
    case OnReq(i, op) =>
      if i != j then 0
      else if op.Cancel? then 1
      else if op.SubmitFail? || op.SubmitPut? || op.DriverComplete? || op.CancelDone? then -1
      else 0
    case OnPass(k, op) =>
      if StartsRetry(s, step, j) then 1
      else if (op.RetryDone? || op.CancelComplete? || op.Finish?) && InHand(s, k, j) then -1
      else 0
    case _ => 0
  }

  /** The step takes request j off the list of a pass and starts a retry of it. */
  predicate StartsRetry(s: State, step: Step, j: nat) {
    && step.OnPass? && step.passOp.Pick? && step.k < |s.passes| && j < |s.reqs|
    && s.passes[step.k].todo != [] && s.passes[step.k].todo[0] == j && s.reqs[j].retried <= MAX_RETRIES
  }

  /** The references to the context that a step takes or drops, those of requests aside. */
  function CtxDelta(step: Step): int {
    match step
    case OnCtx(Lookup) => 1
    case OnCtx(FputTake) => 1
    case OnCtx(LookupPut) => -1
    case OnCtx(ListPut) => -1
    case OnCtx(DestroyPut) => -1
    case OnCtx(ReqPut) => -1
    case OnPass(_, PassPut) => -1
    case _ => 0
  }

  /* ---- What a step does ---- */

  /** The request waits for a retry: it was kicked, or is queued. */
  predicate Pending(r: Req) { r.kicked || r.at.Batch? }

  /** A request the engine owns afterwards was its own before, and is still pending if it was. */
  predicate Waits(r: Req, q: Req) { q.io.Engine? ==> r.io.Engine? && (Pending(r) ==> Pending(q)) }

  predicate Becomes(r: Req, q: Req, delta: int) {
    q.users == r.users + delta && q.data == r.data && q.cancelled == r.cancelled && Waits(r, q)
  }

  /** No pass is newly about to complete a cancelled request. */
  ghost predicate NoneCancelling(s: State, t: State) {
    forall k: nat :: k < |t.passes| && t.passes[k].work.Running? && t.passes[k].work.stage.Cancelling? ==>
      k < |s.passes| && s.passes[k].work == t.passes[k].work
  }

  function Owned(s: State): int { s.users - |s.reqs| - |s.fputs| }

  /** Nothing is reported or reaped. */
  ghost predicate Silent(s: State, t: State) { t.completed == s.completed && t.reaped == s.reaped }

  ghost predicate OthersSame(s: State, t: State, i: nat) {
    |t.reqs| == |s.reqs| && forall j: nat :: j < |s.reqs| && j != i ==> t.reqs[j] == s.reqs[j]
  }

  /** Request i changes, and it takes `delta` references more; nothing is reported. */
  ghost predicate Touches(s: State, t: State, i: nat, delta: int) {
    && Silent(s, t) && NoneCancelling(s, t) && Owned(t) == Owned(s)
    && i < |s.reqs| && OthersSame(s, t, i) && Becomes(s.reqs[i], t.reqs[i], delta)
  }

  /** The usual case: request i becomes r, and the passes stay. */
  lemma ReqTouches(s: State, t: State, i: nat, r: Req, delta: int)
    requires i < |s.reqs| && t.reqs == s.reqs[i := r] && t.passes == s.passes
    requires Silent(s, t) && Owned(t) == Owned(s) && Becomes(s.reqs[i], r, delta)
    ensures Touches(s, t, i, delta)
  {}

  lemma SetTouches(s: State, i: nat, r: Req)
    requires i < |s.reqs| && Becomes(s.reqs[i], r, 0)
    ensures Touches(s, SetReq(s, i, r), i, 0)
  {
    hide Touches, Becomes;
    ReqTouches(s, SetReq(s, i, r), i, r, 0);
  }

  lemma Dropped(r: Req, phase: Phase)
    ensures Becomes(r, r.(users := r.users - 1, phase := phase), -1)
  {}

  /** __aio_put_req of a reference that is not the last, and of the last one with the file kept or let go. */
  lemma PutNotLast(s: State, i: nat, lastFile: bool)
    requires i < |s.reqs| && s.reqs[i].users != 1
    ensures Touches(s, PutReq(s, i, lastFile), i, -1)
  {
    hide Touches, Becomes;
    var r := s.reqs[i];
    Dropped(r, r.phase);
    ReqTouches(s, PutReq(s, i, lastFile), i, r.(users := r.users - 1, phase := r.phase), -1);
  }

  lemma PutGone(s: State, i: nat)
    requires i < |s.reqs| && s.reqs[i].users == 1
    ensures Touches(s, PutReq(s, i, false), i, -1)
  {
    hide Touches, Becomes;
    var r := s.reqs[i];
    Dropped(r, Gone);
    ReqTouches(s, PutReq(s, i, false), i, r.(users := r.users - 1, phase := Gone), -1);
  }

  lemma PutToList(s: State, i: nat)
    requires i < |s.reqs| && s.reqs[i].users == 1
    ensures Touches(s, PutReq(s, i, true), i, -1)
  {
    hide Touches, Becomes;
    var r := s.reqs[i];
    Dropped(r, OnFputList);
    ReqTouches(s, PutReq(s, i, true), i, r.(users := r.users - 1, phase := OnFputList), -1);
  }

  lemma PutTouches(s: State, i: nat, lastFile: bool)
    requires i < |s.reqs|
    ensures Touches(s, PutReq(s, i, lastFile), i, -1)
  {
    hide Touches, PutReq;
    if s.reqs[i].users != 1 { PutNotLast(s, i, lastFile); }
    else if lastFile { PutToList(s, i); }
    else { PutGone(s, i); }
  }

  lemma TouchesTwice(s: State, t: State, u: State, i: nat, a: int, b: int)
    requires Touches(s, t, i, a) && Touches(t, u, i, b)
    ensures Touches(s, u, i, a + b)
  {}

  lemma SetAndPut(s: State, i: nat, r: Req, lastFile: bool)
    requires i < |s.reqs| && Becomes(s.reqs[i], r, 0)
    ensures Touches(s, PutReq(SetReq(s, i, r), i, lastFile), i, -1)
  {
    hide PutReq, Touches, Becomes;
    SetTouches(s, i, r);
    PutTouches(SetReq(s, i, r), i, lastFile);
    TouchesTwice(s, SetReq(s, i, r), PutReq(SetReq(s, i, r), i, lastFile), i, 0, -1);
  }

  /** A request and a pass change, and the pass is not about to complete a cancelled request. */
  lemma BothTouch(s: State, t: State, i: nat, r: Req, k: nat, p: Pass, delta: int)
    requires i < |s.reqs| && t.reqs == s.reqs[i := r] && k < |s.passes| && t.passes == s.passes[k := p]
    requires !(p.work.Running? && p.work.stage.Cancelling?)
    requires Silent(s, t) && Owned(t) == Owned(s) && Becomes(s.reqs[i], r, delta)
    ensures Touches(s, t, i, delta)
  {}

  /** A pass about to complete a request has found it cancelled. */
  ghost predicate CancelOk(s: State) {
    forall k: nat :: k < |s.passes| && s.passes[k].work.Running? && s.passes[k].work.stage.Cancelling? ==>
      s.passes[k].work.id < |s.reqs| && s.reqs[s.passes[k].work.id].cancelled
  }

  ghost predicate Follows(s: State, step: Step, t: State, j: nat)
    requires Enabled(s, step) && j < |s.reqs| <= |t.reqs|
  {
    && t.reqs[j].users == s.reqs[j].users + UsersDelta(s, step, j) && t.reqs[j].data == s.reqs[j].data
    && t.reqs[j].cancelled == (s.reqs[j].cancelled || Cancels(step, j))
    && (t.reqs[j].io.Engine? ==> s.reqs[j].io.Engine?)
    && (Waits(s.reqs[j], t.reqs[j]) || StartsRetry(s, step, j))
  }

  ghost predicate Effect(s: State, step: Step, t: State)
    requires s.ring.Valid() && Enabled(s, step)
  {
    && t.completed == s.completed + EventOf(s, step)
    && |t.reaped| == |s.reaped| + B(step == OnCtx(ReadAdvance))
    && |t.reqs| == |s.reqs| + |DataOf(s, step)|
    && (DataOf(s, step) != [] ==>
          var r := t.reqs[|s.reqs|]; r.data == DataOf(s, step)[0] && !r.cancelled && r.users == 2)
    && Owned(t) == Owned(s) + CtxDelta(step)
    && (forall j: nat :: j < |s.reqs| ==> Follows(s, step, t, j))
    && CancelOk(t)
  }

  /** Steps of request i, and of a pass with request i in hand, that report nothing. */
  predicate Plain(s: State, step: Step, i: nat)
    requires Enabled(s, step)
  {
    match step
    case OnReq(l, op) => l == i && !op.DriverComplete? && !op.Cancel? && !op.MarkCancelled?
    case OnPass(k, op) =>
      if op.Pick? then !StartsRetry(s, step, i) && s.passes[k].todo[0] == i
      else (op.HandOff? || op.RetryAgain? || op.Finish?) && InHand(s, k, i)
    case _ => false
  }

  lemma TouchFollows(s: State, step: Step, t: State, i: nat, j: nat)
    requires Enabled(s, step) && Plain(s, step, i) && Touches(s, t, i, UsersDelta(s, step, i)) && j < |s.reqs|
    ensures |t.reqs| == |s.reqs| && Follows(s, step, t, j)
  {}

  lemma CancelStays(s: State, t: State, i: nat, delta: int)
    requires CancelOk(s) && Touches(s, t, i, delta)
    ensures CancelOk(t)
  {}

  lemma PlainSays(s: State, step: Step, i: nat)
    requires s.ring.Valid() && Enabled(s, step) && Plain(s, step, i)
    ensures EventOf(s, step) == [] && DataOf(s, step) == [] && CtxDelta(step) == 0 && step != OnCtx(ReadAdvance)
  {}

  lemma TouchEffect(s: State, step: Step, t: State, i: nat)
    requires s.ring.Valid() && Enabled(s, step) && CancelOk(s)
    requires Plain(s, step, i) && Touches(s, t, i, UsersDelta(s, step, i))
    ensures Effect(s, step, t)
  {
    hide Enabled, Plain, Follows, UsersDelta, CancelOk, NoneCancelling, EventOf, DataOf, CtxDelta;
    PlainSays(s, step, i);
    CancelStays(s, t, i, UsersDelta(s, step, i));
    forall j: nat | j < |s.reqs| ensures Follows(s, step, t, j) { TouchFollows(s, step, t, i, j); }
  }

  /** Steps that concern no request. */
  predicate NoRequest(step: Step) {
    match step
    case OnReq(_, _) => false
    case OnPass(_, op) => op in {CheckCancelled, RetryQueued, PassPut, EndPass, Requeue}
    case OnCtx(op) => !op.GetReq? && !op.ReadAdvance? && !op.FputTake?
  }

  lemma NoRequestSays(s: State, step: Step, j: nat)
    requires s.ring.Valid() && Enabled(s, step) && NoRequest(step)
    ensures EventOf(s, step) == [] && DataOf(s, step) == [] && step != OnCtx(ReadAdvance)
    ensures UsersDelta(s, step, j) == 0 && !Cancels(step, j)
  {}

  lemma SameEffect(s: State, step: Step, t: State)
    requires s.ring.Valid() && Enabled(s, step) && NoRequest(step)
    requires t.reqs == s.reqs && Silent(s, t) && Owned(t) == Owned(s) + CtxDelta(step) && CancelOk(t)
    ensures Effect(s, step, t)
  {
    hide Enabled, NoRequest, UsersDelta, CancelOk, EventOf, DataOf, CtxDelta, Cancels;
    forall j: nat ensures UsersDelta(s, step, j) == 0 && !Cancels(step, j) { NoRequestSays(s, step, j); }
    NoRequestSays(s, step, 0);
  }

  lemma CancelSame(s: State, t: State)
    requires CancelOk(s) && NoneCancelling(s, t) && t.reqs == s.reqs
    ensures CancelOk(t)
  {}

  /* ---- Completions ---- */

  /** What aio_complete on request i does. */
  ghost predicate Completes(s: State, t: State, i: nat, res: int, res2: int) {
    && i < |s.reqs| && OthersSame(s, t, i) && Becomes(s.reqs[i], t.reqs[i], -1)
    && t.completed == s.completed + (if s.reqs[i].cancelled then [] else [Event(i, s.reqs[i].data, res, res2)])
    && t.reaped == s.reaped && NoneCancelling(s, t) && Owned(t) == Owned(s)
  }

  lemma EmitThenTouch(s: State, t: State, u: State, i: nat, res: int, res2: int)
    requires i < |s.reqs| && s.ring.Valid() && t == Emit(s, i, res, res2) && Touches(t, u, i, -1)
    ensures Completes(s, u, i, res, res2)
  {
    EmitIs(s, i, res, res2);
    hide Emit;
  }

  lemma EmitIs(s: State, i: nat, res: int, res2: int)
    requires i < |s.reqs| && s.ring.Valid()
    ensures var t := Emit(s, i, res, res2);
            && t.completed == s.completed + (if s.reqs[i].cancelled then [] else [Event(i, s.reqs[i].data, res, res2)])
            && t.reqs == s.reqs[i := s.reqs[i].(io := Consumed)] && t.passes == s.passes && t.reaped == s.reaped
            && t.users == s.users && t.fputs == s.fputs
  {}

  lemma CompleteDoes(s: State, i: nat, res: int, res2: int, lastFile: bool)
    requires i < |s.reqs| && s.ring.Valid() && !s.reqs[i].link.Listed?
    ensures Completes(s, Complete(s, i, res, res2, lastFile), i, res, res2)
  {
    hide Complete, PutReq, Touches, Completes, Emit;
    CompleteIs(s, i, res, res2, lastFile);
    EmitIs(s, i, res, res2);
    var t := Emit(s, i, res, res2);
    PutTouches(t, i, lastFile);
    EmitThenTouch(s, t, PutReq(t, i, lastFile), i, res, res2);
  }

  lemma DriverCompleteEffect(s: State, i: nat, res: int, res2: int, lastFile: bool)
    requires Inv(s) && s.ring.Valid() && ReqEnabled(s, i, DriverComplete(res, res2, lastFile)) && CancelOk(s)
    ensures Effect(s, OnReq(i, DriverComplete(res, res2, lastFile)), Complete(s, i, res, res2, lastFile))
  {
    hide Structure, Ledger, WorkOk, Complete;
    StructureHas(s, -1, i);
    CompleteDoes(s, i, res, res2, lastFile);
  }

  lemma StageThenComplete(s: State, k: nat, u: State, res: int, res2: int)
    requires Busy(s, k) && Completes(SetStage(s, k, Returned(false)), u, s.passes[k].work.id, res, res2)
    ensures Completes(s, u, s.passes[k].work.id, res, res2)
  {}

  lemma RetryDoneDoes(s: State, k: nat, res: int, res2: int)
    requires Inv(s) && s.ring.Valid() && Busy(s, k)
    ensures Completes(s, ApplyRetryDone(s, k, res, res2), s.passes[k].work.id, res, res2)
  {
    hide Inv, Complete, Completes;
    BusyHas(s, k);
    var t := SetStage(s, k, Returned(false));
    CompleteDoes(t, s.passes[k].work.id, res, res2, false);
    StageThenComplete(s, k, ApplyRetryDone(s, k, res, res2), res, res2);
  }

  lemma RetryDoneEffect(s: State, k: nat, res: int, res2: int)
    requires Inv(s) && s.ring.Valid() && PassEnabled(s, k, RetryDone(res, res2)) && CancelOk(s)
    ensures Effect(s, OnPass(k, RetryDone(res, res2)), ApplyRetryDone(s, k, res, res2))
  {
    hide Inv, ApplyRetryDone;
    RetryDoneDoes(s, k, res, res2);
  }

  lemma CancelCompleteEffect(s: State, k: nat)
    requires Inv(s) && s.ring.Valid() && PassEnabled(s, k, CancelComplete) && CancelOk(s)
    ensures Effect(s, OnPass(k, CancelComplete), ApplyRetryDone(s, k, -EINTR, 0))
  {
    hide Inv, ApplyRetryDone;
    RetryDoneDoes(s, k, -EINTR, 0);
  }

  /* ---- The other steps ---- */

  lemma CancelEffect(s: State, i: nat, op: ReqOp)
    requires s.ring.Valid() && ReqEnabled(s, i, op) && (op.Cancel? || op.MarkCancelled?) && CancelOk(s)
    ensures Effect(s, OnReq(i, op), ApplyReq(s, i, op))
  {}

  lemma SubmitQueueTouches(s: State, i: nat)
    requires i < |s.reqs|
    ensures Touches(s, ApplySubmitQueue(s, i), i, 0)
  {}

  lemma KickTestTouches(s: State, i: nat)
    requires i < |s.reqs|
    ensures Touches(s, ApplyKickTest(s, i), i, 0)
  {
    hide Touches;
    SetTouches(s, i, ApplyKickTest(s, i).reqs[i]);
  }

  lemma KickIdle(s: State, i: nat)
    requires i < |s.reqs| && s.reqs[i].kickers > 0 && s.reqs[i].link.SelfLinked?
    ensures Touches(s, ApplyKickQueue(s, i), i, 0)
  {
    hide Touches;
    var r := s.reqs[i].(kickers := s.reqs[i].kickers - 1, link := Listed, at := Batch(|s.passes|));
    ReqTouches(s, ApplyKickQueue(s, i), i, r, 0);
  }

  lemma KickBusy(s: State, i: nat)
    requires i < |s.reqs| && s.reqs[i].kickers > 0 && !s.reqs[i].link.SelfLinked?
    ensures Touches(s, ApplyKickQueue(s, i), i, 0)
  {
    hide Touches;
    ReqTouches(s, ApplyKickQueue(s, i), i, s.reqs[i].(kickers := s.reqs[i].kickers - 1), 0);
  }

  lemma ReqStepEffect(s: State, i: nat, op: ReqOp)
    requires Inv(s) && s.ring.Valid() && ReqEnabled(s, i, op) && CancelOk(s)
    ensures Effect(s, OnReq(i, op), ApplyReq(s, i, op))
  {
    hide Inv, CancelOk, Effect, Touches, PutReq, Complete, ApplySubmitQueue, ApplyKickTest, ApplyKickQueue;
    var r, step := s.reqs[i], OnReq(i, op);
    match op
    case SubmitFail(lastFile) =>
      SetAndPut(s, i, if r.submitting then r.(submitting := false) else r.(unsubmitted := false, io := Consumed),
                lastFile);
      TouchEffect(s, step, ApplyReq(s, i, op), i);
    case SubmitQueue =>
      SubmitQueueTouches(s, i);
      TouchEffect(s, step, ApplyReq(s, i, op), i);
    case SubmitPut(lastFile) =>
      SetAndPut(s, i, r.(submitting := false), lastFile);
      TouchEffect(s, step, ApplyReq(s, i, op), i);
    case KickTest =>
      KickTestTouches(s, i);
      TouchEffect(s, step, ApplyReq(s, i, op), i);
    case KickQueue =>
      if r.link.SelfLinked? { KickIdle(s, i); } else { KickBusy(s, i); }
      TouchEffect(s, step, ApplyReq(s, i, op), i);
    case DriverComplete(res, res2, lastFile) => DriverCompleteEffect(s, i, res, res2, lastFile);
    case Cancel => CancelEffect(s, i, op);
    case CancelDone(lastFile) =>
      SetAndPut(s, i, r.(cancelRefs := r.cancelRefs - 1), lastFile);
      TouchEffect(s, step, ApplyReq(s, i, op), i);
    case MarkCancelled => CancelEffect(s, i, op);
    case FputDone =>
      ReqTouches(s, ApplyReq(s, i, op), i, r.(phase := Gone), 0);
      TouchEffect(s, step, ApplyReq(s, i, op), i);
  }

  /** A pick at the retry cap gives the request up; its extra reference is dropped at once. */
  lemma PickCapTouches(s: State, k: nat)
    requires PassEnabled(s, k, Pick) && s.reqs[s.passes[k].todo[0]].retried > MAX_RETRIES
    ensures Touches(s, ApplyPick(s, k), s.passes[k].todo[0], 0)
  {
    hide Touches, PutReq;
    var p, i := s.passes[k], s.passes[k].todo[0];
    var r := s.reqs[i];
    var t := Picked(s, k);
    CappedTouches(s, k);
    PutTouches(t, i, false);
    TouchesTwice(s, t, PutReq(t, i, false), i, 1, -1);
  }

  lemma CappedTouches(s: State, k: nat)
    requires PassEnabled(s, k, Pick) && s.reqs[s.passes[k].todo[0]].retried > MAX_RETRIES
    ensures Touches(s, Picked(s, k), s.passes[k].todo[0], 1) && |Picked(s, k).reqs| == |s.reqs|
  {
    hide Touches;
    var p, i := s.passes[k], s.passes[k].todo[0];
    var r := s.reqs[i].(link := Poisoned, at := Nowhere, users := s.reqs[i].users + 1,
                        retried := s.reqs[i].retried + 1, io := Abandoned);
    BothTouch(s, Picked(s, k), i, r, k, p.(todo := p.todo[1..]), 1);
  }

  lemma PickStartEffect(s: State, k: nat)
    requires s.ring.Valid() && CancelOk(s)
    requires PassEnabled(s, k, Pick) && s.reqs[s.passes[k].todo[0]].retried <= MAX_RETRIES
    ensures Effect(s, OnPass(k, Pick), ApplyPick(s, k))
  {}

  lemma HandOffTouches(s: State, k: nat)
    requires Busy(s, k)
    ensures Touches(s, ApplyHandOff(s, k), s.passes[k].work.id, 0)
  {
    hide Touches;
    var i := s.passes[k].work.id;
    BothTouch(s, ApplyHandOff(s, k), i, s.reqs[i].(io := Driver), k, s.passes[k].(work := Running(i, HandedOff)), 0);
  }

  lemma RetryAgainTouches(s: State, k: nat, noWaits: bool)
    requires Busy(s, k)
    ensures Touches(s, ApplyRetryAgain(s, k, noWaits), s.passes[k].work.id, 0)
  {
    hide Touches;
    var i := s.passes[k].work.id;
    BothTouch(s, ApplyRetryAgain(s, k, noWaits), i, s.reqs[i].(kicked := s.reqs[i].kicked || noWaits), k,
              s.passes[k].(work := Running(i, Returned(true))), 0);
  }

  lemma LeftTouches(s: State, k: nat, r: Req, queue: bool)
    requires Busy(s, k) && Becomes(s.reqs[s.passes[k].work.id], r, 0)
    ensures Touches(s, Left(s, k, r, queue), s.passes[k].work.id, 0)
    ensures |Left(s, k, r, queue).reqs| == |s.reqs|
  {
    hide Touches, Becomes;
    var i := s.passes[k].work.id;
    BothTouch(s, Left(s, k, r, queue), i, r, k, s.passes[k].(work := AfterPut(s.reqs[i])), 0);
  }

  lemma FinishTouches(s: State, k: nat, lastFile: bool)
    requires Inv(s) && PassEnabled(s, k, Finish(lastFile))
    ensures Touches(s, ApplyFinish(s, k, lastFile), s.passes[k].work.id, -1)
  {
    hide Inv, PutReq, Relink, Leave, Left, Touches;
    BusyHas(s, k);
    var i := s.passes[k].work.id;
    var r := s.reqs[i];
    LeaveIs(s, k);
    RelinkIs(s, k);
    LeftTouches(s, k, r.(at := Nowhere), false);
    LeftTouches(s, k, r.(link := SelfLinked, at := Nowhere), false);
    if r.kicked { LeftTouches(s, k, r.(link := Listed, at := Batch(|s.passes|)), true); }
    var u := if s.passes[k].work.stage.again then Relink(Leave(s, k), i) else Leave(s, k);
    PutTouches(u, i, lastFile);
    TouchesTwice(s, u, PutReq(u, i, lastFile), i, 0, -1);
  }

  lemma CheckCancelledEffect(s: State, k: nat)
    requires s.ring.Valid() && PassEnabled(s, k, CheckCancelled) && CancelOk(s)
    ensures Effect(s, OnPass(k, CheckCancelled), ApplyCheckCancelled(s, k))
  {
    hide Effect;
    SameEffect(s, OnPass(k, CheckCancelled), ApplyCheckCancelled(s, k));
  }

  /** Nothing but passes and the context changes, and it loses `puts` references. */
  ghost predicate NoReq(s: State, t: State, puts: nat) {
    t.reqs == s.reqs && Silent(s, t) && NoneCancelling(s, t) && Owned(t) == Owned(s) - puts
  }

  lemma RetryQueuedSame(s: State, k: nat)
    requires Busy(s, k)
    ensures NoReq(s, SetStage(s, k, Returned(false)), 0)
  {}

  lemma PassPutSame(s: State, k: nat)
    requires k < |s.passes| && s.reqPuts > 0
    ensures NoReq(s, ApplyPassPut(s, k), 1)
  {}

  lemma WorkSame(s: State, k: nat, work: Work)
    requires k < |s.passes| && !work.Running?
    ensures NoReq(s, SetPass(s, k, s.passes[k].(work := work)), 0)
  {}

  lemma StartNoReq(s: State, t: State, drain: bool)
    requires NoReq(s, t, 0)
    ensures NoReq(s, StartPass(t, drain), 0)
  {}

  lemma EndPassSame(s: State, k: nat)
    requires k < |s.passes|
    ensures NoReq(s, ApplyEndPass(s, k), 0)
  {
    hide NoReq, SetPass, StartPass;
    WorkSame(s, k, Done);
    WorkSame(s, k, Requeueing);
    StartNoReq(s, SetPass(s, k, s.passes[k].(work := Done)), true);
  }

  lemma RequeueSame(s: State, k: nat)
    requires k < |s.passes|
    ensures NoReq(s, SetPass(s, k, s.passes[k].(work := Done)).(workQueued := true), 0)
  {}

  lemma NoReqEffect(s: State, k: nat, op: PassOp)
    requires s.ring.Valid() && PassEnabled(s, k, op) && CancelOk(s)
    requires op.RetryQueued? || op.PassPut? || op.EndPass? || op.Requeue?
    requires NoReq(s, ApplyPass(s, k, op), if op.PassPut? then 1 else 0)
    ensures Effect(s, OnPass(k, op), ApplyPass(s, k, op))
  {
    hide Effect, ApplyPass, PassEnabled;
    CancelSame(s, ApplyPass(s, k, op));
    SameEffect(s, OnPass(k, op), ApplyPass(s, k, op));
  }

  lemma PassOnlyEffect(s: State, k: nat, op: PassOp)
    requires s.ring.Valid() && PassEnabled(s, k, op) && CancelOk(s)
    requires op.RetryQueued? || op.PassPut? || op.EndPass? || op.Requeue?
    ensures Effect(s, OnPass(k, op), ApplyPass(s, k, op))
  {
    hide Effect, CancelOk, NoReq, SetStage, SetPass, ApplyPassPut, ApplyEndPass;
    if op.RetryQueued? { RetryQueuedSame(s, k); }
    else if op.PassPut? { PassPutSame(s, k); }
    else if op.EndPass? { EndPassSame(s, k); }
    else { RequeueSame(s, k); }
    NoReqEffect(s, k, op);
  }

  lemma PassStepEffect(s: State, k: nat, op: PassOp)
    requires Inv(s) && s.ring.Valid() && PassEnabled(s, k, op) && CancelOk(s)
    ensures Effect(s, OnPass(k, op), ApplyPass(s, k, op))
  {
    hide Inv, CancelOk, Effect, Touches, ApplyPick, ApplyCheckCancelled, ApplyRetryDone, ApplyHandOff, ApplyRetryAgain;
    hide ApplyFinish, ApplyPassPut, ApplyEndPass, SetStage;
    var step := OnPass(k, op);
    match op
    case Pick =>
      var i := s.passes[k].todo[0];
      if s.reqs[i].retried > MAX_RETRIES {
        PickCapTouches(s, k);
        TouchEffect(s, step, ApplyPick(s, k), i);
      } else {
        PickStartEffect(s, k);
      }
    case CheckCancelled => CheckCancelledEffect(s, k);
    case CancelComplete => CancelCompleteEffect(s, k);
    case HandOff =>
      HandOffTouches(s, k);
      TouchEffect(s, step, ApplyHandOff(s, k), s.passes[k].work.id);
    case RetryDone(res, res2) => RetryDoneEffect(s, k, res, res2);
    case RetryAgain(noWaits) =>
      RetryAgainTouches(s, k, noWaits);
      TouchEffect(s, step, ApplyRetryAgain(s, k, noWaits), s.passes[k].work.id);
    case Finish(lastFile) =>
      FinishTouches(s, k, lastFile);
      TouchEffect(s, step, ApplyFinish(s, k, lastFile), s.passes[k].work.id);
    case _ => PassOnlyEffect(s, k, op);
  }

  lemma GetReqEffect(s: State, data: int)
    requires s.ring.Valid() && CtxEnabled(s, GetReq(data)) && CancelOk(s)
    ensures Effect(s, OnCtx(GetReq(data)), ApplyGetReq(s, data))
  {
    hide Effect, CancelOk, Avail, ApplyGetReq;
    if s.reqsActive < Avail(s.ring) { GetReqAdmits(s, data); } else { GetReqRefuses(s, data); }
  }

  lemma GetReqAdmits(s: State, data: int)
    requires s.ring.Valid() && CtxEnabled(s, GetReq(data)) && CancelOk(s) && s.reqsActive < Avail(s.ring)
    ensures Effect(s, OnCtx(GetReq(data)), ApplyGetReq(s, data))
  {
    hide Avail;
  }

  lemma GetReqRefuses(s: State, data: int)
    requires s.ring.Valid() && CtxEnabled(s, GetReq(data)) && CancelOk(s) && s.reqsActive >= Avail(s.ring)
    ensures Effect(s, OnCtx(GetReq(data)), ApplyGetReq(s, data))
  {
    hide Avail;
  }

  lemma ReadAdvanceEffect(s: State)
    requires s.ring.Valid() && CtxEnabled(s, ReadAdvance) && CancelOk(s)
    ensures Effect(s, OnCtx(ReadAdvance), ApplyCtx(s, ReadAdvance))
  {}

  lemma FputTakeEffect(s: State)
    requires s.ring.Valid() && CtxEnabled(s, FputTake) && CancelOk(s)
    ensures Effect(s, OnCtx(FputTake), ApplyCtx(s, FputTake))
  {}

  lemma StartSame(s: State, t: State, drain: bool)
    requires t.reqs == s.reqs && t.passes == s.passes && Silent(s, t) && t.users == s.users && t.fputs == s.fputs
    ensures var u := StartPass(t, drain);
            u.reqs == s.reqs && Silent(s, u) && Owned(u) == Owned(s) && NoneCancelling(s, u)
  {}

  lemma PutCtxSame(s: State, who: Who)
    ensures var t := PutCtx(s, who);
            t.reqs == s.reqs && t.passes == s.passes && Silent(s, t) && t.users == s.users - 1 && t.fputs == s.fputs
  {}

  lemma FreeSame(s: State)
    requires s.closing.Flushing? && CallerWaits(s)
    ensures var t := ApplyFree(s); t.reqs == s.reqs && Silent(s, t) && Owned(t) == Owned(s) && NoneCancelling(s, t)
  {}

  lemma CtxSame(s: State, op: CtxOp)
    requires s.ring.Valid() && CtxEnabled(s, op) && !op.GetReq? && !op.ReadAdvance? && !op.FputTake?
    ensures var t := ApplyCtx(s, op);
            && t.reqs == s.reqs && Silent(s, t) && NoneCancelling(s, t)
            && Owned(t) == Owned(s) + CtxDelta(OnCtx(op))
  {
    hide DestroyerReady, Flushed, Count, PutCtx, StartPass, ApplyFree;
    match op
    case WorkerStart => StartSame(s, s.(workQueued := false, closing := WorkerClosing(s)), false);
    case ReaderStart => StartSame(s, s, true);
    case LookupPut => PutCtxSame(s.(lookups := s.lookups - 1), SomebodyElse);
    case ListPut => PutCtxSame(s.(listPuts := s.listPuts - 1, listDrops := s.listDrops + 1), SomebodyElse);
    case DestroyPut =>
      DestroyerKnown(s);
      PutCtxSame(s.(lookups := s.lookups - 1, destroyers := s.destroyers - 1), SomebodyElse);
    case ReqPut => PutCtxSame(s.(reqPuts := s.reqPuts - 1), SomebodyElse);
    case Free =>
      FlushedKnown(s);
      FreeSame(s);
    case _ =>
  }

  lemma CtxStepEffect(s: State, op: CtxOp)
    requires s.ring.Valid() && CtxEnabled(s, op) && CancelOk(s)
    ensures Effect(s, OnCtx(op), ApplyCtx(s, op))
  {
    hide CancelOk, Effect, ApplyGetReq, CtxEnabled, NoneCancelling;
    match op
    case GetReq(data) => GetReqEffect(s, data);
    case ReadAdvance => ReadAdvanceEffect(s);
    case FputTake => FputTakeEffect(s);
    case _ =>
      hide ApplyCtx;
      CtxSame(s, op);
      CancelSame(s, ApplyCtx(s, op));
      SameEffect(s, OnCtx(op), ApplyCtx(s, op));
  }

  lemma StepEffect(s: State, step: Step)
    requires Inv(s) && s.ring.Valid() && Enabled(s, step) && CancelOk(s)
    ensures Effect(s, step, Apply(s, step))
  {
    hide Inv, CancelOk, Effect, ApplyReq, ApplyPass, ApplyCtx, ReqEnabled, PassEnabled, CtxEnabled;
    match step
    case OnReq(i, op) => ReqStepEffect(s, i, op);
    case OnPass(k, op) => PassStepEffect(s, k, op);
    case OnCtx(op) => CtxStepEffect(s, op);
  }
}
