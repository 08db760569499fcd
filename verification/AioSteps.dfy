/** Every step of every thread keeps the invariant, so it holds in every reachable state. */
module AioSteps {
  import opened AioRing
  import opened Aio
  import opened AioInvariant

  /* ---- Building blocks ---- */

  /** What __aio_put_req does to the request, and what it leaves alone. */
  lemma PutReqIs(s: State, i: nat, lastFile: bool)
    requires i < |s.reqs| && s.reqs[i].phase.Live?
    ensures var t := PutReq(s, i, lastFile);
            && t.passes == s.passes && t.runList == s.runList && t.workQueued == s.workQueued && t.wakers == s.wakers
            && |t.reqs| == |s.reqs| && t.reqs == s.reqs[i := t.reqs[i]]
            && var phase := if s.reqs[i].users != 1 then Live else if lastFile then OnFputList else Gone;
               t.reqs[i] == s.reqs[i].(users := s.reqs[i].users - 1, phase := phase)
  {}

  /** Dropping the surplus reference. */
  lemma PutKeeps(s: State, i: nat, lastFile: bool)
    requires InvBut(s, i) && i < |s.reqs|
    ensures Inv(PutReq(s, i, lastFile))
  {
    hide Structure, Ledger, WorkOk, PutReq;
    StructureHas(s, i, i);
    LedgerPut(s, i, lastFile);
    var t := PutReq(s, i, lastFile);
    PutReqIs(s, i, lastFile);
    StructureReq(s.reqs, s.passes, s.runList, i, i, t.reqs[i], -1);
    SameWork(s, t);
  }

  lemma StructureHas(s: State, x: int, i: nat)
    requires Structure(s.reqs, s.passes, s.runList, x) && i < |s.reqs|
    ensures ReqOk(s.reqs[i], B(i == x)) && PlaceOk(s.reqs[i].at, i, s.passes)
  {}

  lemma SameWork(s: State, t: State)
    requires WorkOk(s) && t.runList == s.runList && t.passes == s.passes
    requires (s.workQueued ==> t.workQueued) && (s.wakers > 0 ==> t.wakers > 0 || t.workQueued)
    ensures WorkOk(t)
  {}

  /** A change of request i that moves it nowhere and finishes nothing. */
  lemma SetReqKeeps(s: State, x: int, i: nat, r: Req, y: int)
    requires InvBut(s, x) && i < |s.reqs| && Moves(x, y, i) && ReqOk(r, B(i == y))
    requires r.at == s.reqs[i].at && r.io == s.reqs[i].io && r.phase == s.reqs[i].phase && r.data == s.reqs[i].data
    ensures InvBut(SetReq(s, i, r), y)
  {
    hide Structure, Ledger, WorkOk;
    StructureReq(s.reqs, s.passes, s.runList, x, i, r, y);
    LedgerReq(s, i, r);
    SameWork(s, SetReq(s, i, r));
  }

  /* ---- Steps about a request ---- */

  lemma SubmitFailKeeps(s: State, i: nat, lastFile: bool)
    requires Inv(s) && ReqEnabled(s, i, SubmitFail(lastFile))
    ensures Inv(ApplySubmitFail(s, i, lastFile))
  {
    hide Structure, Ledger, WorkOk;
    StructureHas(s, -1, i);
    var r := s.reqs[i];
    if r.submitting {
      SetReqKeeps(s, -1, i, r.(submitting := false), i);
      PutKeeps(SetReq(s, i, r.(submitting := false)), i, lastFile);
    } else {
      var q := r.(unsubmitted := false, io := Consumed);
      LedgerConsume(s, i, q);
      StructureReq(s.reqs, s.passes, s.runList, -1, i, q, i);
      SameWork(s, SetReq(s, i, q));
      PutKeeps(SetReq(s, i, q), i, lastFile);
    }
  }

  /** An I/O reference dropped without an event. */
  lemma LedgerConsume(s: State, i: nat, r: Req)
    requires Ledger(s) && i < |s.reqs| && !s.reqs[i].io.Consumed? && r.io.Consumed?
    requires r.phase == s.reqs[i].phase && r.data == s.reqs[i].data
    ensures Ledger(SetReq(s, i, r))
  {
    hide FputsOk, EventsOk, Contents, Sum;
    SumUpdate(s.reqs, Held, i, r);
    SumUpdate(s.reqs, Unconsumed, i, r);
    EventsReq(s.completed, s.reqs, i, r);
    FputsReq(s.fputs, s.reqs, i, r);
  }

  lemma SubmitQueueKeeps(s: State, i: nat)
    requires Inv(s) && ReqEnabled(s, i, SubmitQueue)
    ensures Inv(ApplySubmitQueue(s, i))
  {
    hide Structure, Ledger, WorkOk;
    StructureHas(s, -1, i);
    var r := s.reqs[i].(unsubmitted := false, link := Listed, at := Batch(|s.passes|));
    StructureQueue(s.reqs, s.passes, s.runList, -1, i, r);
    LedgerReq(s, i, r);
    var t := SetReq(s, i, r).(runList := s.runList + [i]);
    SameLedger(SetReq(s, i, r), t);
    StartKeeps(t, true);
  }

  lemma SameLedger(s: State, t: State)
    requires Ledger(s) && t.reqs == s.reqs && t.ring == s.ring && t.reading == s.reading && t.completed == s.completed
    requires t.reaped == s.reaped && t.fputs == s.fputs && t.users == s.users && t.reqsActive == s.reqsActive
    requires t.dead == s.dead && t.onList == s.onList && t.listPuts == s.listPuts && t.listDrops == s.listDrops
    requires t.lookups == s.lookups && t.reqPuts == s.reqPuts && t.closing == s.closing
    ensures Ledger(t)
  {}

  /** A new pass. */
  lemma StartKeeps(s: State, drain: bool)
    requires Structure(s.reqs, s.passes, s.runList, -1) && Ledger(s)
    ensures Inv(StartPass(s, drain))
  {
    hide Structure, Ledger;
    StructureStart(s.reqs, s.passes, s.runList, drain);
    SameLedger(s, StartPass(s, drain));
  }

  lemma SubmitPutKeeps(s: State, i: nat, lastFile: bool)
    requires Inv(s) && ReqEnabled(s, i, SubmitPut(lastFile))
    ensures Inv(ApplyReq(s, i, SubmitPut(lastFile)))
  {
    hide Structure, Ledger, WorkOk;
    StructureHas(s, -1, i);
    var r := s.reqs[i].(submitting := false);
    SetReqKeeps(s, -1, i, r, i);
    PutKeeps(SetReq(s, i, r), i, lastFile);
  }

  lemma KickTestKeeps(s: State, i: nat)
    requires Inv(s) && ReqEnabled(s, i, KickTest)
    ensures Inv(ApplyKickTest(s, i))
  {
    hide Structure, Ledger, WorkOk;
    StructureHas(s, -1, i);
    SetReqKeeps(s, -1, i, ApplyKickTest(s, i).reqs[i], -1);
  }

  lemma KickQueueKeeps(s: State, i: nat)
    requires Inv(s) && ReqEnabled(s, i, KickQueue)
    ensures Inv(ApplyKickQueue(s, i))
  {
    hide Structure, Ledger, WorkOk;
    StructureHas(s, -1, i);
    var r := s.reqs[i].(kickers := s.reqs[i].kickers - 1);
    if r.link.SelfLinked? {
      var q := r.(link := Listed, at := Batch(|s.passes|));
      StructureQueue(s.reqs, s.passes, s.runList, -1, i, q);
      LedgerReq(s, i, q);
      assert s.reqs[i := r][i := q] == s.reqs[i := q];
      SameLedger(SetReq(s, i, q), ApplyKickQueue(s, i));
      WakerWorks(ApplyKickQueue(s, i));
    } else {
      SetReqKeeps(s, -1, i, r, -1);
    }
  }

  lemma WakerWorks(s: State)
    requires s.wakers > 0
    ensures WorkOk(s)
  {}

  /** In aio_complete the request is never on a run list, there is room for its event, and what follows is a put. */
  lemma CompleteIs(s: State, i: nat, res: int, res2: int, lastFile: bool)
    requires i < |s.reqs| && s.ring.Valid() && !s.reqs[i].link.Listed?
    ensures Complete(s, i, res, res2, lastFile) == PutReq(Emit(s, i, res, res2), i, lastFile)
  {}

  lemma DriverCompleteKeeps(s: State, i: nat, res: int, res2: int, lastFile: bool)
    requires Inv(s) && s.ring.Valid() && ReqEnabled(s, i, DriverComplete(res, res2, lastFile))
    ensures Inv(ApplyReq(s, i, DriverComplete(res, res2, lastFile)))
  {
    hide Structure, Ledger, WorkOk, Complete, PutReq, Unqueue;
    StructureHas(s, -1, i);
    CompleteIs(s, i, res, res2, lastFile);
    LedgerEmit(s, i, res, res2);
    var t := Emit(s, i, res, res2);
    StructureReq(s.reqs, s.passes, s.runList, -1, i, t.reqs[i], i);
    SameWork(s, t);
    PutKeeps(t, i, lastFile);
  }

  lemma CancelKeeps(s: State, i: nat)
    requires Inv(s) && s.ring.Valid() && ReqEnabled(s, i, Cancel)
    ensures Inv(ApplyReq(s, i, Cancel))
  {
    hide Structure, Ledger, WorkOk;
    StructureHas(s, -1, i);
    SetReqKeeps(s, -1, i, ApplyReq(s, i, Cancel).reqs[i], -1);
  }

  lemma CancelDoneKeeps(s: State, i: nat, lastFile: bool)
    requires Inv(s) && s.ring.Valid() && ReqEnabled(s, i, CancelDone(lastFile))
    ensures Inv(ApplyReq(s, i, CancelDone(lastFile)))
  {
    hide Structure, Ledger, WorkOk;
    StructureHas(s, -1, i);
    var r := s.reqs[i].(cancelRefs := s.reqs[i].cancelRefs - 1);
    SetReqKeeps(s, -1, i, r, i);
    PutKeeps(SetReq(s, i, r), i, lastFile);
  }

  lemma MarkCancelledKeeps(s: State, i: nat)
    requires Inv(s) && s.ring.Valid() && ReqEnabled(s, i, MarkCancelled)
    ensures Inv(ApplyReq(s, i, MarkCancelled))
  {
    hide Structure, Ledger, WorkOk;
    StructureHas(s, -1, i);
    SetReqKeeps(s, -1, i, s.reqs[i].(cancelled := true), -1);
  }

  lemma FputDoneKeeps(s: State, i: nat)
    requires Inv(s) && s.ring.Valid() && ReqEnabled(s, i, FputDone)
    ensures Inv(ApplyReq(s, i, FputDone))
  {
    hide Structure, WorkOk, FputsOk, EventsOk, Contents, Sum;
    StructureHas(s, -1, i);
    var r := s.reqs[i].(phase := Gone);
    StructureReq(s.reqs, s.passes, s.runList, -1, i, r, -1);
    SumAtLeast(s.reqs, Held, i);
    SumUpdate(s.reqs, Held, i, r);
    SumUpdate(s.reqs, Unconsumed, i, r);
    EventsReq(s.completed, s.reqs, i, r);
    FputsReq(s.fputs, s.reqs, i, r);
    SameWork(s, ApplyReq(s, i, FputDone));
  }

  lemma ReqStepKeeps(s: State, i: nat, op: ReqOp)
    requires Inv(s) && s.ring.Valid() && ReqEnabled(s, i, op)
    ensures Inv(ApplyReq(s, i, op))
  {
    hide Inv;
    match op
    case SubmitFail(lastFile) => SubmitFailKeeps(s, i, lastFile);
    case SubmitQueue => SubmitQueueKeeps(s, i);
    case SubmitPut(lastFile) => SubmitPutKeeps(s, i, lastFile);
    case KickTest => KickTestKeeps(s, i);
    case KickQueue => KickQueueKeeps(s, i);
    case DriverComplete(res, res2, lastFile) => DriverCompleteKeeps(s, i, res, res2, lastFile);
    case Cancel => CancelKeeps(s, i);
    case CancelDone(lastFile) => CancelDoneKeeps(s, i, lastFile);
    case MarkCancelled => MarkCancelledKeeps(s, i);
    case FputDone => FputDoneKeeps(s, i);
  }

  /* ---- Steps of a pass ---- */

  lemma PassHas(s: State, k: nat)
    requires Structure(s.reqs, s.passes, s.runList, -1) && k < |s.passes|
    ensures PassOk(s.passes[k], s.reqs, k)
  {}

  lemma StillActive(s: State, t: State, k: nat)
    requires k < |t.passes| && !t.passes[k].work.Done?
    ensures WorkOk(t)
  {
    assert SomeActive(t.passes);
  }

  /** Passes and the run list do not enter the accounts. */
  lemma LedgerMoves(s: State, i: nat, r: Req, passes: seq<Pass>, runList: seq<nat>)
    requires Ledger(s) && i < |s.reqs|
    requires r.phase == s.reqs[i].phase && r.data == s.reqs[i].data && (r.io.Consumed? <==> s.reqs[i].io.Consumed?)
    ensures Ledger(SetReq(s, i, r).(passes := passes, runList := runList))
  {
    hide Ledger;
    LedgerReq(s, i, r);
    SameLedger(SetReq(s, i, r), SetReq(s, i, r).(passes := passes, runList := runList));
  }

  lemma NextOf(q: seq<nat>, reqs: seq<Req>, k: nat)
    requires ListOk(q, reqs, k) && q != []
    ensures q[0] < |reqs| && reqs[q[0]].at == Batch(k)
  {
    assert q[0] in q;
  }

  lemma PickRunKeeps(s: State, k: nat)
    requires Inv(s) && PassEnabled(s, k, Pick) && s.reqs[s.passes[k].todo[0]].retried <= MAX_RETRIES
    ensures Inv(ApplyPick(s, k))
  {
    hide Structure, Ledger, WorkOk, ListOk;
    PassHas(s, k);
    var p, i := s.passes[k], s.passes[k].todo[0];
    NextOf(p.todo, s.reqs, k);
    StructureHas(s, -1, i);
    var t := ApplyPick(s, k);
    var r, q := t.reqs[i], t.passes[k];
    ListPop(p.todo, s.reqs, k, r);
    StructureUpdate(s.reqs, s.passes, s.runList, -1, i, r, k, q, false, -1);
    LedgerMoves(s, i, r, s.passes[k := q], s.runList);
    StillActive(s, t, k);
  }

  /** The retry cap: the request leaves its list for good. */
  lemma PickCapKeeps(s: State, k: nat)
    requires Inv(s) && PassEnabled(s, k, Pick) && s.reqs[s.passes[k].todo[0]].retried > MAX_RETRIES
    ensures Inv(ApplyPick(s, k))
  {
    hide Structure, Ledger, WorkOk, ListOk, PutReq;
    PassHas(s, k);
    var p, i := s.passes[k], s.passes[k].todo[0];
    NextOf(p.todo, s.reqs, k);
    StructureHas(s, -1, i);
    var t := Picked(s, k);
    var r, q := t.reqs[i], t.passes[k];
    ListPop(p.todo, s.reqs, k, r);
    StructureUpdate(s.reqs, s.passes, s.runList, -1, i, r, k, q, false, i);
    LedgerMoves(s, i, r, s.passes[k := q], s.runList);
    StillActive(s, t, k);
    PutKeeps(t, i, false);
  }

  /** A change of stage, with a change of the request being retried. */
  lemma StageKeeps(s: State, k: nat, stage: Stage, r: Req)
    requires Inv(s) && Busy(s, k) && ReqOk(r, 0) && StageOk(stage, r.io)
    requires var old' := s.reqs[s.passes[k].work.id];
             r.at == old'.at && r.phase == old'.phase && r.data == old'.data && (r.io.Consumed? <==> old'.io.Consumed?)
    ensures Inv(SetReq(SetStage(s, k, stage), s.passes[k].work.id, r))
  {
    hide Structure, Ledger, WorkOk, ListOk;
    PassHas(s, k);
    var i := s.passes[k].work.id;
    var q := s.passes[k].(work := Running(i, stage));
    ListUpdate(q.todo, s.reqs, k, i, r);
    StructureUpdate(s.reqs, s.passes, s.runList, -1, i, r, k, q, false, -1);
    LedgerMoves(s, i, r, s.passes[k := q], s.runList);
    StillActive(s, SetReq(SetStage(s, k, stage), i, r), k);
  }

  lemma SetStageKeeps(s: State, k: nat, stage: Stage)
    requires Inv(s) && Busy(s, k) && StageOk(stage, s.reqs[s.passes[k].work.id].io)
    ensures Inv(SetStage(s, k, stage))
  {
    hide Structure, Ledger, WorkOk;
    var i := s.passes[k].work.id;
    StructureHas(s, -1, i);
    StageKeeps(s, k, stage, s.reqs[i]);
    assert s.reqs[i := s.reqs[i]] == s.reqs;
    assert SetReq(SetStage(s, k, stage), i, s.reqs[i]) == SetStage(s, k, stage);
  }

  /** The retry itself finishes the request. */
  lemma EngineCompleteKeeps(s: State, k: nat, res: int, res2: int)
    requires Inv(s) && s.ring.Valid() && Busy(s, k) && s.reqs[s.passes[k].work.id].io.Engine?
    ensures Inv(Complete(SetStage(s, k, Returned(false)), s.passes[k].work.id, res, res2, false))
  {
    hide Structure, Ledger, WorkOk, ListOk, Complete, PutReq, Unqueue, Push;
    BusyHas(s, k);
    PassHas(s, k);
    var i := s.passes[k].work.id;
    var t := SetStage(s, k, Returned(false));
    CompleteIs(t, i, res, res2, false);
    SameLedger(s, t);
    LedgerEmit(t, i, res, res2);
    var u := Emit(t, i, res, res2);
    ListUpdate(t.passes[k].todo, s.reqs, k, i, u.reqs[i]);
    StructureUpdate(s.reqs, s.passes, s.runList, -1, i, u.reqs[i], k, t.passes[k], false, i);
    StillActive(s, u, k);
    PutKeeps(u, i, false);
  }

  lemma BusyHas(s: State, k: nat)
    requires Inv(s) && Busy(s, k)
    ensures var i := s.passes[k].work.id;
            s.reqs[i].at == In(k) && StageOk(s.passes[k].work.stage, s.reqs[i].io) && ReqOk(s.reqs[i], 0)
  {
    hide ListOk;
    PassHas(s, k);
    StructureHas(s, -1, s.passes[k].work.id);
  }

  /** The end of aio_run_iocb: relink if there is more to do, queue if kicked meanwhile, drop the extra reference. */
  lemma FinishKeeps(s: State, k: nat, lastFile: bool)
    requires Inv(s) && PassEnabled(s, k, Finish(lastFile))
    ensures Inv(ApplyFinish(s, k, lastFile))
  {
    hide Inv, PutReq, Relink, Leave, Left;
    var i := s.passes[k].work.id;
    BusyHas(s, k);
    LeaveIs(s, k);
    if !s.passes[k].work.stage.again {
      LeaveAs(s, k, s.reqs[i].(at := Nowhere), false);
      LeftReq(s, k, s.reqs[i].(at := Nowhere));
      PutKeeps(Leave(s, k), i, lastFile);
    } else {
      RelinkIs(s, k);
      if s.reqs[i].kicked {
        LeaveAs(s, k, s.reqs[i].(link := Listed, at := Batch(|s.passes|)), true);
      } else {
        LeaveAs(s, k, s.reqs[i].(link := SelfLinked, at := Nowhere), false);
      }
      PutKeeps(Relink(Leave(s, k), i), i, lastFile);
    }
  }

  /** Pass k is done with its request, which becomes `r` and is queued or not. */
  function Left(s: State, k: nat, r: Req, queue: bool): State
    requires Busy(s, k)
  {
    var i := s.passes[k].work.id;
    SetReq(s, i, r).(passes := s.passes[k := s.passes[k].(work := AfterPut(s.reqs[i]))],
                     runList := if queue then s.runList + [i] else s.runList)
  }

  lemma LeaveIs(s: State, k: nat)
    requires Busy(s, k)
    ensures Leave(s, k) == Left(s, k, s.reqs[s.passes[k].work.id].(at := Nowhere), false)
    ensures |Leave(s, k).reqs| == |s.reqs| && |Leave(s, k).passes| == |s.passes|
  {}

  lemma RelinkIs(s: State, k: nat)
    requires Busy(s, k)
    ensures |Leave(s, k).reqs| == |s.reqs|
    ensures var r := s.reqs[s.passes[k].work.id];
            Relink(Leave(s, k), s.passes[k].work.id)
            == if r.kicked then Left(s, k, r.(link := Listed, at := Batch(|s.passes|)), true)
               else Left(s, k, r.(link := SelfLinked, at := Nowhere), false)
  {
    hide Leave, Left, SetReq, Relink;
    var i := s.passes[k].work.id;
    var r := s.reqs[i];
    LeaveIs(s, k);
    LeftReq(s, k, r.(at := Nowhere));
    LeftTwice(s, k, r.(at := Nowhere), r.(link := SelfLinked, at := Nowhere));
    LeftQueue(s, k, r.(link := SelfLinked, at := Nowhere), r.(link := Listed, at := Batch(|s.passes|)));
    LeftReq(s, k, r.(link := SelfLinked, at := Nowhere));
    RelinkUnfolds(Leave(s, k), i);
  }

  lemma RelinkUnfolds(s: State, i: nat)
    requires i < |s.reqs|
    ensures var t := SetReq(s, i, s.reqs[i].(link := SelfLinked));
            Relink(s, i) == if s.reqs[i].kicked then QueueKicked(t, i) else t
  {}

  lemma LeftReq(s: State, k: nat, r: Req)
    requires Busy(s, k)
    ensures var t := Left(s, k, r, false);
            |t.reqs| == |s.reqs| && t.reqs[s.passes[k].work.id] == r && |t.passes| == |s.passes|
  {}

  lemma LeftTwice(s: State, k: nat, a: Req, b: Req)
    requires Busy(s, k)
    ensures |Left(s, k, a, false).reqs| == |s.reqs|
    ensures SetReq(Left(s, k, a, false), s.passes[k].work.id, b) == Left(s, k, b, false)
  {
    SetTwice(s.reqs, s.passes[k].work.id, a, b);
  }

  lemma LeftQueue(s: State, k: nat, a: Req, b: Req)
    requires Busy(s, k) && a.link.SelfLinked? && b == a.(link := Listed, at := Batch(|s.passes|))
    ensures |Left(s, k, a, false).reqs| == |s.reqs|
    ensures QueueKicked(Left(s, k, a, false), s.passes[k].work.id) == Left(s, k, b, true)
  {
    SetTwice(s.reqs, s.passes[k].work.id, a, b);
  }

  lemma SetTwice(reqs: seq<Req>, i: nat, a: Req, b: Req)
    requires i < |reqs|
    ensures reqs[i := a][i := b] == reqs[i := b]
  {}

  lemma LeaveAs(s: State, k: nat, r: Req, queue: bool)
    requires Inv(s) && Busy(s, k)
    requires var i := s.passes[k].work.id;
             && ReqOk(r, 1) && r.phase == s.reqs[i].phase && r.data == s.reqs[i].data && r.io == s.reqs[i].io
             && r.at == if queue then Batch(|s.passes|) else Nowhere
    ensures InvBut(Left(s, k, r, queue), s.passes[k].work.id) && |Left(s, k, r, queue).reqs| == |s.reqs|
  {
    hide Structure, Ledger, WorkOk, ListOk, ReqOk;
    BusyHas(s, k);
    PassHas(s, k);
    var p, i := s.passes[k], s.passes[k].work.id;
    var q, u := p.(work := AfterPut(s.reqs[i])), Left(s, k, r, queue);
    ListUpdate(q.todo, s.reqs, k, i, r);
    StructureUpdate(s.reqs, s.passes, s.runList, -1, i, r, k, q, queue, i);
    LedgerMoves(s, i, r, s.passes[k := q], u.runList);
    StillActive(s, u, k);
  }

  lemma PassPutKeeps(s: State, k: nat)
    requires Inv(s) && PassEnabled(s, k, PassPut)
    ensures Inv(ApplyPassPut(s, k))
  {
    hide Structure, FputsOk, EventsOk, Contents, Sum, PutCtx;
    var work := if s.users == 1 then Freeing else Idle;
    StructureStop(s.reqs, s.passes, s.runList, k, work);
    var t := SetPass(s, k, s.passes[k].(work := work)).(reqPuts := s.reqPuts - 1);
    StillActive(s, t, k);
    PutCtxKeeps(t, ThePass(k));
  }

  lemma EndPassKeeps(s: State, k: nat)
    requires Inv(s) && PassEnabled(s, k, EndPass)
    ensures Inv(ApplyEndPass(s, k))
  {
    hide Structure, Ledger;
    var p := s.passes[k];
    var t := SetPass(s, k, p.(work := Done));
    StructureStop(s.reqs, s.passes, s.runList, k, Done);
    StructureStop(s.reqs, s.passes, s.runList, k, Requeueing);
    SameLedger(s, t);
    if s.runList == [] {
    } else if p.drain {
      StartKeeps(t, true);
    } else {
      var u := SetPass(s, k, p.(work := Requeueing));
      SameLedger(s, u);
      StillActive(s, u, k);
    }
  }

  lemma RequeueKeeps(s: State, k: nat)
    requires Inv(s) && s.ring.Valid() && PassEnabled(s, k, Requeue)
    ensures Inv(ApplyPass(s, k, Requeue))
  {
    hide Structure, Ledger, ListOk;
    PassHas(s, k);
    StructureStop(s.reqs, s.passes, s.runList, k, Done);
    SameLedger(s, ApplyPass(s, k, Requeue));
  }

  lemma PassStepKeeps(s: State, k: nat, op: PassOp)
    requires Inv(s) && s.ring.Valid() && PassEnabled(s, k, op)
    ensures Inv(ApplyPass(s, k, op))
  {
    hide Inv, ReqOk, Complete;
    match op
    case Pick =>
      if s.reqs[s.passes[k].todo[0]].retried > MAX_RETRIES { PickCapKeeps(s, k); } else { PickRunKeeps(s, k); }
    case CheckCancelled =>
      BusyHas(s, k);
      SetStageKeeps(s, k, Cancelling);
      SetStageKeeps(s, k, Retrying);
    case CancelComplete => BusyHas(s, k); EngineCompleteKeeps(s, k, -EINTR, 0);
    case HandOff => HandOffKeeps(s, k);
    case RetryDone(res, res2) => BusyHas(s, k); EngineCompleteKeeps(s, k, res, res2);
    case RetryAgain(noWaits) => RetryAgainKeeps(s, k, noWaits);
    case RetryQueued => BusyHas(s, k); SetStageKeeps(s, k, Returned(false));
    case Finish(lastFile) => FinishKeeps(s, k, lastFile);
    case PassPut => PassPutKeeps(s, k);
    case EndPass => EndPassKeeps(s, k);
    case Requeue => RequeueKeeps(s, k);
  }

  lemma HandOffKeeps(s: State, k: nat)
    requires Inv(s) && PassEnabled(s, k, HandOff)
    ensures Inv(ApplyHandOff(s, k))
  {
    hide Inv;
    BusyHas(s, k);
    StageKeeps(s, k, HandedOff, s.reqs[s.passes[k].work.id].(io := Driver));
  }

  lemma RetryAgainKeeps(s: State, k: nat, noWaits: bool)
    requires Inv(s) && PassEnabled(s, k, RetryAgain(noWaits))
    ensures Inv(ApplyRetryAgain(s, k, noWaits))
  {
    hide Inv;
    BusyHas(s, k);
    var r := s.reqs[s.passes[k].work.id];
    StageKeeps(s, k, Returned(true), r.(kicked := r.kicked || noWaits));
  }

  /* ---- Steps of the context ---- */

  lemma GetReqKeeps(s: State, data: int)
    requires Inv(s) && CtxEnabled(s, GetReq(data))
    ensures Inv(ApplyGetReq(s, data))
  {
    hide Structure, ReqsOk, FputsOk, EventsOk, Contents, Sum;
    if s.reqsActive < Avail(s.ring) {
      var r := Req(2, Nulled, false, false, 0, true, true, Engine, 0, 0, false, Live, Nowhere, data, 0);
      StructureNew(s.reqs, s.passes, s.runList, r);
      AvailIsFree(s.ring);
      UnconsumedAreHeld(s);
      SumAppend(s.reqs, Held, r);
      SumAppend(s.reqs, Unconsumed, r);
      FputsNew(s.fputs, s.reqs, r);
      EventsNew(s.completed, s.reqs, r);
      SameWork(s, ApplyGetReq(s, data));
    }
  }

  /** Whatever may still need a slot is counted in reqs_active. */
  lemma UnconsumedAreHeld(s: State)
    requires Structure(s.reqs, s.passes, s.runList, -1)
    ensures Sum(s.reqs, Unconsumed) <= Sum(s.reqs, Held)
  {
    hide Sum, ListOk, PassesOk, PlacesOk;
    forall j: nat | j < |s.reqs| ensures Unconsumed(s.reqs[j]) <= Held(s.reqs[j]) {
      assert ReqOk(s.reqs[j], B(j == -1));
    }
    SumMonotone(s.reqs, Unconsumed, Held);
  }

  lemma FputsNew(fputs: seq<nat>, reqs: seq<Req>, r: Req)
    requires FputsOk(fputs, reqs) && r.phase.Live?
    ensures FputsOk(fputs, reqs + [r])
  {}

  lemma EventsNew(completed: seq<Event>, reqs: seq<Req>, r: Req)
    requires EventsOk(completed, reqs)
    ensures EventsOk(completed, reqs + [r])
  {
    forall n: nat | n < |completed| ensures EventOk(completed[n], reqs + [r]) { assert EventOk(completed[n], reqs); }
  }

  lemma ReadAdvanceKeeps(s: State)
    requires Inv(s) && s.ring.Valid() && CtxEnabled(s, ReadAdvance)
    ensures Inv(ApplyCtx(s, ReadAdvance))
    ensures s.reading.event == Contents(s.ring)[0]
  {
    hide Structure, FputsOk, EventsOk, Sum, Contents;
    PopRemovesFirst(s.ring);
    var c := Contents(s.ring);
    assert s.reaped + c == (s.reaped + [c[0]]) + c[1..];
    SameWork(s, ApplyCtx(s, ReadAdvance));
  }

  lemma ReadCopyKeeps(s: State)
    requires Inv(s) && CtxEnabled(s, ReadCopy)
    ensures Inv(ApplyReadCopy(s))
  {
    hide Structure, FputsOk, EventsOk, Sum, Contents;
    if s.ring.head != s.ring.tail { PopRemovesFirst(s.ring); }
    SameWork(s, ApplyReadCopy(s));
  }

  /** A put of the context by somebody whose reference is counted. */
  lemma PutCtxKeeps(s: State, who: Who)
    requires Structure(s.reqs, s.passes, s.runList, -1) && WorkOk(s) && s.users > 0
    requires Ledger(s.(users := s.users - 1, closing := if s.users == 1 then Stopping(who) else s.closing))
    ensures Inv(PutCtx(s, who))
  {
    hide Structure, Ledger, WorkOk;
    SameLedger(s.(users := s.users - 1, closing := if s.users == 1 then Stopping(who) else s.closing), PutCtx(s, who));
    SameWork(s, PutCtx(s, who));
  }

  lemma FputTakeKeeps(s: State)
    requires Inv(s) && s.ring.Valid() && CtxEnabled(s, FputTake)
    ensures Inv(ApplyCtx(s, FputTake))
  {
    hide Structure, WorkOk, EventsOk, Contents, Sum;
    var i := s.fputs[0];
    assert i in s.fputs;
    StructureHas(s, -1, i);
    var r := s.reqs[i].(phase := Fputting);
    StructureReq(s.reqs, s.passes, s.runList, -1, i, r, -1);
    FputsPop(s.fputs, s.reqs, r);
    SumUpdate(s.reqs, Held, i, r);
    SumUpdate(s.reqs, Unconsumed, i, r);
    EventsReq(s.completed, s.reqs, i, r);
    SameWork(s, ApplyCtx(s, FputTake));
  }

  lemma CtxStepKeeps(s: State, op: CtxOp)
    requires Inv(s) && s.ring.Valid() && CtxEnabled(s, op)
    ensures Inv(ApplyCtx(s, op))
  {
    match op
    case GetReq(data) => GetReqKeeps(s, data);
    case WorkerStart => WorkerStartKeeps(s);
    case ReaderStart => StartKeeps(s, true);
    case KickWork => KickWorkKeeps(s);
    case TimerFires => ClosingKeeps(s, s.(timer := false));
    case ReadCopy => ReadCopyKeeps(s);
    case ReadAdvance => ReadAdvanceKeeps(s);
    case Lookup => LookupKeeps(s);
    case LookupPut => LookupPutKeeps(s);
    case Unlist => UnlistKeeps(s);
    case ListPut => ListPutKeeps(s);
    case DestroyPut => DestroyPutKeeps(s);
    case ReqPut => ReqPutKeeps(s);
    case FputTake => FputTakeKeeps(s);
    case CancelWork => CancelWorkKeeps(s);
    case Free => FreeKeeps(s);
  }

  lemma WorkerStartKeeps(s: State)
    requires Inv(s)
    ensures Inv(ApplyWorkerStart(s))
  {
    hide Structure, Ledger, WorkOk;
    var t := s.(workQueued := false, closing := WorkerClosing(s));
    ClosingLedger(s, t);
    StartKeeps(t, false);
  }

  /** How far __put_ioctx has got does not enter the accounts. */
  lemma ClosingLedger(s: State, t: State)
    requires Ledger(s) && (t.closing.Open? <==> s.closing.Open?) && SameAccounts(s, t)
    ensures Ledger(t)
  {}

  predicate SameAccounts(s: State, t: State) {
    && t.reqs == s.reqs && t.ring == s.ring && t.reading == s.reading && t.completed == s.completed
    && t.reaped == s.reaped && t.fputs == s.fputs && t.users == s.users && t.reqsActive == s.reqsActive
    && t.dead == s.dead && t.onList == s.onList && t.listPuts == s.listPuts && t.listDrops == s.listDrops
    && t.lookups == s.lookups && t.reqPuts == s.reqPuts
  }

  lemma ClosingKeeps(s: State, t: State)
    requires Inv(s) && (t.closing.Open? <==> s.closing.Open?) && SameAccounts(s, t)
    requires t.passes == s.passes && t.runList == s.runList
    requires (s.workQueued ==> t.workQueued) && (s.wakers > 0 ==> t.wakers > 0 || t.workQueued)
    ensures Inv(t)
  {
    hide Structure, Ledger, WorkOk;
    ClosingLedger(s, t);
    SameWork(s, t);
  }

  lemma KickWorkKeeps(s: State)
    requires Inv(s) && s.wakers > 0
    ensures Inv(ApplyKickWork(s))
  {
    hide Inv;
    ClosingKeeps(s, ApplyKickWork(s));
  }

  /** Nothing is on the run list any more when the work item is cancelled. */
  lemma CancelWorkKeeps(s: State)
    requires Inv(s) && s.closing.Stopping?
    ensures Inv(ApplyCancelWork(s))
  {
    hide Structure, Ledger, WorkOk;
    ClosingLedger(s, ApplyCancelWork(s));
    NothingListed(s);
    EmptyWorks(ApplyCancelWork(s));
  }

  lemma EmptyWorks(s: State)
    requires s.runList == []
    ensures WorkOk(s)
  {}

  /** Without users there is no active request, hence nothing to run. */
  lemma NothingListed(s: State)
    requires Inv(s) && !s.closing.Open?
    ensures s.runList == []
  {
    hide Sum, PassesOk, PlacesOk, FputsOk, EventsOk, Contents, WorkOk;
    if s.runList != [] {
      var i := s.runList[0];
      assert i in s.runList;
      assert ReqOk(s.reqs[i], B(i == -1));
      SumAtLeast(s.reqs, Held, i);
    }
  }

  lemma FreeKeeps(s: State)
    requires Inv(s) && s.closing.Flushing? && CallerWaits(s)
    ensures Inv(ApplyFree(s))
  {
    hide Structure, Ledger, WorkOk;
    var t := s.(closing := Freed(s.closing.who, s.closing.upTo));
    ClosingKeeps(s, t);
    match s.closing.who
    case ThePass(k) =>
      StructureStop(s.reqs, s.passes, s.runList, k, Idle);
      SameLedger(t, ApplyFree(s));
      StillActive(s, ApplyFree(s), k);
    case SomebodyElse =>
  }

  lemma LookupKeeps(s: State)
    requires Inv(s) && s.ring.Valid() && CtxEnabled(s, Lookup)
    ensures Inv(ApplyCtx(s, Lookup))
  {
    hide Structure, FputsOk, EventsOk, Contents, Sum, WorkOk;
    SameWork(s, ApplyCtx(s, Lookup));
  }

  lemma LookupPutKeeps(s: State)
    requires Inv(s) && s.ring.Valid() && CtxEnabled(s, LookupPut)
    ensures Inv(ApplyCtx(s, LookupPut))
  {
    hide Structure, FputsOk, EventsOk, Contents, Sum, WorkOk, PutCtx;
    var t := s.(lookups := s.lookups - 1);
    SameWork(s, t);
    PutCtxKeeps(t, SomebodyElse);
  }

  lemma UnlistKeeps(s: State)
    requires Inv(s)
    ensures Inv(ApplyUnlist(s))
  {
    hide Structure, FputsOk, EventsOk, Contents, Sum, WorkOk;
    SameWork(s, ApplyUnlist(s));
  }

  lemma ListPutKeeps(s: State)
    requires Inv(s) && s.ring.Valid() && CtxEnabled(s, ListPut)
    ensures Inv(ApplyCtx(s, ListPut))
  {
    hide Structure, FputsOk, EventsOk, Contents, Sum, WorkOk, PutCtx;
    var t := s.(listPuts := s.listPuts - 1, listDrops := s.listDrops + 1);
    SameWork(s, t);
    PutCtxKeeps(t, SomebodyElse);
  }

  lemma DestroyerKnown(s: State)
    requires DestroyerReady(s)
    ensures s.destroyers > 0 && s.lookups > 0
  {}

  lemma DestroyPutKeeps(s: State)
    requires Inv(s) && s.ring.Valid() && CtxEnabled(s, DestroyPut)
    ensures Inv(ApplyCtx(s, DestroyPut))
  {
    hide Structure, FputsOk, EventsOk, Contents, Sum, WorkOk, PutCtx, Count;
    var t := s.(lookups := s.lookups - 1, destroyers := s.destroyers - 1);
    SameWork(s, t);
    PutCtxKeeps(t, SomebodyElse);
  }

  lemma ReqPutKeeps(s: State)
    requires Inv(s) && s.ring.Valid() && CtxEnabled(s, ReqPut)
    ensures Inv(ApplyCtx(s, ReqPut))
  {
    hide Structure, FputsOk, EventsOk, Contents, Sum, WorkOk, PutCtx;
    var t := s.(reqPuts := s.reqPuts - 1);
    SameWork(s, t);
    PutCtxKeeps(t, SomebodyElse);
  }

  /* ---- Whole runs ---- */

  lemma StepKeeps(s: State, step: Step)
    requires Inv(s) && s.ring.Valid() && Enabled(s, step)
    ensures Inv(Apply(s, step))
  {
    hide Inv;
    match step
    case OnReq(i, op) => ReqStepKeeps(s, i, op);
    case OnPass(k, op) => PassStepKeeps(s, k, op);
    case OnCtx(op) => CtxStepKeeps(s, op);
  }

  predicate Possible(s: State, steps: seq<Step>)
    decreases |steps|
  {
    steps == [] || (s.ring.Valid() && Enabled(s, steps[0]) && Possible(Apply(s, steps[0]), steps[1..]))
  }

  function After(s: State, steps: seq<Step>): State
    requires Possible(s, steps)
    decreases |steps|
  {
    if steps == [] then s else After(Apply(s, steps[0]), steps[1..])
  }

  lemma {:induction false} OneMoreStep(s: State, steps: seq<Step>, step: Step)
    requires Possible(s, steps) && After(s, steps).ring.Valid() && Enabled(After(s, steps), step)
    ensures Possible(s, steps + [step]) && After(s, steps + [step]) == Apply(After(s, steps), step)
    decreases |steps|
  {
    hide Apply, Enabled;
    if steps == [] {
      assert (steps + [step])[1..] == [];
    } else {
      assert (steps + [step])[1..] == steps[1..] + [step];
      OneMoreStep(Apply(s, steps[0]), steps[1..], step);
    }
  }

  lemma {:induction false} OneAfterTheOther(s: State, a: seq<Step>, b: seq<Step>)
    requires Possible(s, a) && Possible(After(s, a), b)
    ensures Possible(s, a + b) && After(s, a + b) == After(After(s, a), b)
    decreases |a|
  {
    hide Apply, Enabled;
    if a == [] {
      assert a + b == b;
    } else {
      assert (a + b)[0] == a[0] && (a + b)[1..] == a[1..] + b;
      OneAfterTheOther(Apply(s, a[0]), a[1..], b);
    }
  }

  lemma InitInv(maxReqs: nat, filler: Event)
    ensures Inv(Init(maxReqs, filler))
  {
    assert Contents(Init(maxReqs, filler).ring) == [];
  }

  /** The invariant holds after every interleaving of every sequence of steps. */
  lemma {:induction false} Always(s: State, steps: seq<Step>)
    requires Inv(s) && Possible(s, steps)
    ensures Inv(After(s, steps))
    decreases |steps|
  {
    hide Inv, Enabled, Apply;
    if steps != [] {
      StepKeeps(s, steps[0]);
      Always(Apply(s, steps[0]), steps[1..]);
    }
  }
}
