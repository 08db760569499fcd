/**
 fs/aio.c: one I/O context and its asynchronous requests, as a state machine.  Every critical
 section under ctx_lock, ring_lock or ioctx_list_lock is one step, and so is every action
 taken without a lock.  Steps of different threads interleave freely.
 */
module Aio {
  import opened AioRing

  /** ki_run_list: self-linked, on a list, zeroed by aio_run_iocb, or poisoned by list_del. */
  datatype Link = SelfLinked | Listed | Nulled | Poisoned

  /** Who will give up the I/O reference: the retry engine, the driver that returned -EIOCBQUEUED,
      nobody because it is gone, or nobody because the retry cap was hit. */
  datatype Io = Engine | Driver | Consumed | Abandoned

  datatype Phase = Live | OnFputList | Fputting | Gone

  /** Where a request is: nowhere, in the batch of pass k, or being retried by pass k.  The
      context's own run list is the batch of the next pass to start. */
  datatype Place = Nowhere | Batch(k: nat) | In(k: nat)

  /** struct kiocb.  `submitting` and `cancelRefs` say who holds references, `kickers` counts
      callers of kick_iocb between test-and-set and queue_kicked_iocb, `owed` records a kick
      since the last retry started, `unsubmitted` that io_submit_one is not done preparing it, and
      `starts` counts the retries started. */
  datatype Req = Req(users: int, link: Link, kicked: bool, cancelled: bool, retried: nat,
                     unsubmitted: bool, submitting: bool, io: Io, cancelRefs: nat, kickers: nat,
                     owed: bool, phase: Phase, at: Place, data: int, starts: nat)

  /** Progress of aio_run_iocb outside the lock. */
  datatype Stage = Entered | Cancelling | Retrying | HandedOff | Returned(again: bool)

  /** What a pass is at: nothing, a request, dropping a reference to the context, freeing the context
      because that was the last one, or queueing the work again. */
  datatype Work = Idle | Running(id: nat, stage: Stage) | Putting | Freeing | Requeueing | Done

  /** One execution of __aio_run_iocbs with its private list.  `drain` marks callers that loop
      until the run list stays empty; the others are the worker's, and queue the work again. */
  datatype Pass = Pass(todo: seq<nat>, work: Work, drain: bool)

  datatype Reading = NoRead | Copied(event: Event)

  datatype Who = SomebodyElse | ThePass(k: nat)

  /** __put_ioctx, called by whoever dropped the last reference: cancel_delayed_work comes first; then
      flush_workqueue waits for the first `upTo` passes, and for the work item if it is in the queue. */
  datatype Closing =
    | Open
    | Stopping(who: Who)
    | Flushing(who: Who, upTo: nat, item: bool)
    | Freed(who: Who, upTo: nat)

  /** `workQueued` is the pending bit of the context's work item, `timer` says that its timer has not
      fired yet; `destroyers` counts the lookups that are inside io_destroy. */
  datatype State = State(
    ring: Ring, reading: Reading, completed: seq<Event>, reaped: seq<Event>,
    reqs: seq<Req>, runList: seq<nat>, passes: seq<Pass>, workQueued: bool, timer: bool, wakers: nat,
    users: int, reqsActive: int, dead: bool, onList: bool, listPuts: nat, listDrops: nat,
    lookups: nat, destroyers: nat, reqPuts: nat, fputs: seq<nat>, closing: Closing)

  const MAX_RETRIES: nat := 1024 * 1024
  const EINTR: int := 4

  /** Steps about request i, by its submitter, its driver, a waker, a canceller or the fput work. */
  datatype ReqOp =
    | SubmitFail(lastFile: bool)
    | SubmitQueue
    | SubmitPut(lastFile: bool)
    | KickTest
    | KickQueue
    | DriverComplete(res: int, res2: int, lastFile: bool)
    | Cancel
    | CancelDone(lastFile: bool)
    | MarkCancelled
    | FputDone

  /** Steps of pass k. */
  datatype PassOp =
    | Pick
    | CheckCancelled
    | CancelComplete
    | HandOff
    | RetryDone(res: int, res2: int)
    | RetryAgain(noWaits: bool)
    | RetryQueued
    | Finish(lastFile: bool)
    | PassPut
    | EndPass
    | Requeue

  datatype CtxOp =
    | GetReq(data: int)
    | WorkerStart
    | ReaderStart
    | KickWork
    | TimerFires
    | ReadCopy
    | ReadAdvance
    | Lookup
    | LookupPut
    | Unlist
    | ListPut
    | DestroyPut
    | ReqPut
    | FputTake
    | CancelWork
    | Free

  datatype Step = OnReq(i: nat, reqOp: ReqOp) | OnPass(k: nat, passOp: PassOp) | OnCtx(ctxOp: CtxOp)

  function Init(maxReqs: nat, filler: Event): State {
    State(Ring(RingEvents(maxReqs), 0, 0, seq(RingEvents(maxReqs), _ => filler)), NoRead, [], [],
          [], [], [], false, false, 0, 1, 0, false, true, 0, 0, 0, 0, 0, [], Open)
  }

  /* ---- Critical sections ---- */

  function SetReq(s: State, i: nat, r: Req): State
    requires i < |s.reqs|
  {
    s.(reqs := s.reqs[i := r])
  }

  function SetPass(s: State, k: nat, p: Pass): State
    requires k < |s.passes|
  {
    s.(passes := s.passes[k := p])
  }

  /** __aio_put_req: `lastFile` says that the file's reference count dropped to 0 with it. */
  function PutReq(s: State, i: nat, lastFile: bool): State
    requires i < |s.reqs|
  {
    var r := s.reqs[i].(users := s.reqs[i].users - 1);
    if r.users != 0 then SetReq(s, i, r)
    else if lastFile then
      SetReq(s, i, r.(phase := OnFputList)).(users := s.users + 1, fputs := [i] + s.fputs, reqPuts := s.reqPuts + 1)
    else
      SetReq(s, i, r.(phase := Gone)).(reqsActive := s.reqsActive - 1, reqPuts := s.reqPuts + 1)
  }

  /** put_ioctx: the last one calls __put_ioctx. */
  function PutCtx(s: State, who: Who): State {
    if s.users == 1 then s.(users := 0, closing := Stopping(who)) else s.(users := s.users - 1)
  }

  /** __queue_kicked_iocb */
  function QueueKicked(s: State, i: nat): State
    requires i < |s.reqs|
  {
    if s.reqs[i].link.SelfLinked? then
      SetReq(s, i, s.reqs[i].(link := Listed, at := Batch(|s.passes|))).(runList := s.runList + [i])
    else s
  }

  /** list_del_init of a request that is still queued. */
  function Unqueue(s: State, i: nat): State
    requires i < |s.reqs|
  {
    if s.reqs[i].link.Listed? then
      SetReq(s, i, s.reqs[i].(link := SelfLinked, at := Nowhere)).(
        runList := Without(s.runList, i),
        passes := seq(|s.passes|, k requires 0 <= k < |s.passes| => s.passes[k].(todo := Without(s.passes[k].todo, i))))
    else s
  }

  function Without(q: seq<nat>, i: nat): seq<nat> {
    if q == [] then [] else if q[0] == i then Without(q[1..], i) else [q[0]] + Without(q[1..], i)
  }

  /** aio_complete: cancelled requests get no event; then the I/O reference is dropped. */
  function Complete(s: State, i: nat, res: int, res2: int, lastFile: bool): State
    requires i < |s.reqs| && s.ring.Valid()
  {
    var u := Unqueue(s, i);
    var e := Event(i, u.reqs[i].data, res, res2);
    var c := if u.reqs[i].cancelled then u else u.(ring := Push(u.ring, e), completed := u.completed + [e]);
    PutReq(SetReq(c, i, c.reqs[i].(io := Consumed)), i, lastFile)
  }

  /** __aio_run_iocbs begins: list_splice_init moves the whole run list to the new pass. */
  function StartPass(s: State, drain: bool): State {
    s.(passes := s.passes + [Pass(s.runList, Idle, drain)], runList := [])
  }

  /* ---- Which steps are possible, and what they do ---- */

  predicate Busy(s: State, k: nat) {
    k < |s.passes| && s.passes[k].work.Running? && s.passes[k].work.id < |s.reqs|
  }

  predicate At(s: State, k: nat, stage: Stage) {
    Busy(s, k) && s.passes[k].work.stage == stage
  }

  function Count(passes: seq<Pass>, f: Pass -> bool): nat {
    if passes == [] then 0 else Count(passes[..|passes| - 1], f) + if f(passes[|passes| - 1]) then 1 else 0
  }

  predicate Drains(p: Pass) { p.drain && !p.work.Done? }

  predicate Puts(p: Pass) { p.work.Putting? }

  /** The lookups in use: by callers that loop over the run list, by one that copies an event, and by
      those inside io_destroy. */
  function UsedLookups(s: State): nat {
    Count(s.passes, Drains) + (if s.reading.Copied? then 1 else 0) + s.destroyers
  }

  predicate FreeLookup(s: State) { s.lookups > UsedLookups(s) }

  /** io_destroy has dropped the list reference if it had to, and wait_for_all_aios returns. */
  predicate DestroyerReady(s: State) {
    s.destroyers > s.listPuts && s.reqsActive == 0 && s.lookups >= UsedLookups(s)
  }

  /** flush_workqueue returns: what was queued or running when it began, other than its caller, is over. */
  predicate Flushed(s: State) {
    && s.closing.Flushing? && !s.closing.item && CallerWaits(s)
    && forall k: nat :: k < s.closing.upTo && k < |s.passes| && s.closing.who != ThePass(k) ==> Over(s.passes[k])
  }

  predicate CallerWaits(s: State)
    requires s.closing.Flushing?
  {
    s.closing.who.ThePass? ==> s.closing.who.k < |s.passes| && s.passes[s.closing.who.k].work.Freeing?
  }

  /** A pass that the worker is through with; other callers are not waited for. */
  predicate Over(p: Pass) { p.drain || p.work.Done? }

  predicate ReqEnabled(s: State, i: nat, op: ReqOp) {
    && i < |s.reqs|
    && var r := s.reqs[i];
       match op
       case SubmitFail(_) => r.unsubmitted
       case SubmitQueue => r.unsubmitted && r.submitting && FreeLookup(s)
       case SubmitPut(_) => !r.unsubmitted && r.submitting
       case KickTest => !r.unsubmitted && r.phase.Live?
       case KickQueue => r.kickers > 0
       case DriverComplete(_, _, _) => r.io.Driver?
       case Cancel => r.phase.Live?
       case CancelDone(_) => r.cancelRefs > 0
       case MarkCancelled => r.phase.Live? && s.dead
       case FputDone => r.phase.Fputting?
  }

  predicate PassEnabled(s: State, k: nat, op: PassOp) {
    && k < |s.passes|
    && var p := s.passes[k];
       match op
       case Pick => p.work.Idle? && p.todo != [] && p.todo[0] < |s.reqs|
       case CheckCancelled => At(s, k, Entered)
       case CancelComplete => At(s, k, Cancelling)
       case HandOff => At(s, k, Retrying)
       case RetryDone(_, _) => At(s, k, Retrying)
       case RetryAgain(_) => At(s, k, Retrying)
       case RetryQueued => At(s, k, HandedOff)
       case Finish(_) => Busy(s, k) && p.work.stage.Returned?
       case PassPut => p.work.Putting? && s.reqPuts > 0
       case EndPass => p.work.Idle? && p.todo == []
       case Requeue => p.work.Requeueing?
  }

  predicate CtxEnabled(s: State, op: CtxOp) {
    match op
    case GetReq(_) => s.lookups > 0
    case WorkerStart => s.workQueued && !s.timer
    case ReaderStart => FreeLookup(s)
    case KickWork => s.wakers > 0
    case TimerFires => s.timer
    case ReadCopy => FreeLookup(s) && s.reading.NoRead?
    case ReadAdvance => s.reading.Copied?
    case Lookup => s.onList && !s.dead
    case LookupPut => FreeLookup(s)
    case Unlist => FreeLookup(s)
    case ListPut => s.listPuts > 0
    case DestroyPut => DestroyerReady(s)
    case ReqPut => s.reqPuts > Count(s.passes, Puts)
    case FputTake => s.fputs != [] && s.fputs[0] < |s.reqs|
    case CancelWork => s.closing.Stopping?
    case Free => Flushed(s)
  }

  predicate Enabled(s: State, step: Step) {
    match step
    case OnReq(i, op) => ReqEnabled(s, i, op)
    case OnPass(k, op) => PassEnabled(s, k, op)
    case OnCtx(op) => CtxEnabled(s, op)
  }

  /** __aio_get_req: admit the request only while reqs_active is below the free slots. */
  function ApplyGetReq(s: State, data: int): State
    requires s.ring.Valid()
  {
    if s.reqsActive < Avail(s.ring) then
      s.(reqs := s.reqs + [Req(2, Nulled, false, false, 0, true, true, Engine, 0, 0, false, Live, Nowhere, data, 0)],
         users := s.users + 1, reqsActive := s.reqsActive + 1)
    else s
  }

  /** io_submit_one, out_put_req: one put for the submitter, one for the I/O. */
  function ApplySubmitFail(s: State, i: nat, lastFile: bool): State
    requires i < |s.reqs|
  {
    var r := s.reqs[i];
    if r.submitting then PutReq(SetReq(s, i, r.(submitting := false)), i, lastFile)
    else PutReq(SetReq(s, i, r.(unsubmitted := false, io := Consumed)), i, lastFile)
  }

  /** io_submit_one: queue the request and start draining, in one critical section. */
  function ApplySubmitQueue(s: State, i: nat): State
    requires i < |s.reqs|
  {
    var r := s.reqs[i].(unsubmitted := false, link := Listed, at := Batch(|s.passes|));
    StartPass(SetReq(s, i, r).(runList := s.runList + [i]), true)
  }

  /** Request i leaves the head of the list of pass k and gets an extra reference: it is about to be
      retried, or has reached the retry cap. */
  function Picked(s: State, k: nat): State
    requires k < |s.passes| && s.passes[k].todo != [] && s.passes[k].todo[0] < |s.reqs|
  {
    var p := s.passes[k];
    var i := p.todo[0];
    var r := s.reqs[i].(link := Poisoned, at := Nowhere, users := s.reqs[i].users + 1,
                        retried := s.reqs[i].retried + 1);
    if s.reqs[i].retried > MAX_RETRIES then
      SetPass(SetReq(s, i, r.(io := Abandoned)), k, p.(todo := p.todo[1..]))
    else
      SetPass(SetReq(s, i, r.(kicked := false, owed := false, link := Nulled, at := In(k), starts := r.starts + 1)), k,
              p.(todo := p.todo[1..], work := Running(i, Entered)))
  }

  /** __aio_run_iocbs and aio_run_iocb up to the point where the lock is released. */
  function ApplyPick(s: State, k: nat): State
    requires k < |s.passes| && s.passes[k].todo != [] && s.passes[k].todo[0] < |s.reqs|
  {
    var i := s.passes[k].todo[0];
    if s.reqs[i].retried > MAX_RETRIES then PutReq(Picked(s, k), i, false) else Picked(s, k)
  }

  function SetStage(s: State, k: nat, stage: Stage): State
    requires Busy(s, k)
  {
    SetPass(s, k, s.passes[k].(work := Running(s.passes[k].work.id, stage)))
  }

  /** The test for cancellation, without a lock; aio_complete is a step of its own. */
  function ApplyCheckCancelled(s: State, k: nat): State
    requires Busy(s, k)
  {
    SetStage(s, k, if s.reqs[s.passes[k].work.id].cancelled then Cancelling else Retrying)
  }

  /** The retry method gives the request to the driver, which may complete it before -EIOCBQUEUED is returned. */
  function ApplyHandOff(s: State, k: nat): State
    requires Busy(s, k)
  {
    var i := s.passes[k].work.id;
    SetReq(SetStage(s, k, HandedOff), i, s.reqs[i].(io := Driver))
  }

  function ApplyRetryDone(s: State, k: nat, res: int, res2: int): State
    requires Busy(s, k) && s.ring.Valid()
  {
    Complete(SetStage(s, k, Returned(false)), s.passes[k].work.id, res, res2, false)
  }

  function ApplyRetryAgain(s: State, k: nat, noWaits: bool): State
    requires Busy(s, k)
  {
    var i := s.passes[k].work.id;
    SetReq(SetStage(s, k, Returned(true)), i, s.reqs[i].(kicked := s.reqs[i].kicked || noWaits))
  }

  /** INIT_LIST_HEAD, and queueing if a kick arrived during the retry. */
  function Relink(s: State, i: nat): State
    requires i < |s.reqs|
  {
    var t := SetReq(s, i, s.reqs[i].(link := SelfLinked));
    if t.reqs[i].kicked then QueueKicked(t, i) else t
  }

  function AfterPut(r: Req): Work { if r.users == 1 then Putting else Idle }

  /** The lock is taken again: aio_run_iocb has left request i.  If the put that follows is the last of
      the request, a put of the context is next. */
  function Leave(s: State, k: nat): State
    requires Busy(s, k)
  {
    var i := s.passes[k].work.id;
    SetReq(SetPass(s, k, s.passes[k].(work := AfterPut(s.reqs[i]))), i, s.reqs[i].(at := Nowhere))
  }

  /** aio_run_iocb from the point where the lock is taken again, and the put of the extra reference. */
  function ApplyFinish(s: State, k: nat, lastFile: bool): State
    requires Busy(s, k) && s.passes[k].work.stage.Returned?
  {
    var i := s.passes[k].work.id;
    PutReq(if s.passes[k].work.stage.again then Relink(Leave(s, k), i) else Leave(s, k), i, lastFile)
  }

  /** The end of __aio_run_iocbs and what its caller does with the answer. */
  function ApplyEndPass(s: State, k: nat): State
    requires k < |s.passes|
  {
    var p := s.passes[k];
    if s.runList == [] then SetPass(s, k, p.(work := Done))
    else if p.drain then StartPass(SetPass(s, k, p.(work := Done)), true)
    else SetPass(s, k, p.(work := Requeueing))
  }

  /** put_ioctx in __aio_run_iocbs. */
  function ApplyPassPut(s: State, k: nat): State
    requires k < |s.passes| && s.reqPuts > 0
  {
    var t := SetPass(s, k, s.passes[k].(work := if s.users == 1 then Freeing else Idle));
    PutCtx(t.(reqPuts := s.reqPuts - 1), ThePass(k))
  }

  /** If flush_workqueue waits for the work item, it now waits for the pass that takes it. */
  function WorkerClosing(s: State): Closing {
    match s.closing
    case Flushing(who, _, true) => Flushing(who, |s.passes| + 1, false)
    case _ => s.closing
  }

  /** aio_kick_handler begins. */
  function ApplyWorkerStart(s: State): State {
    StartPass(s.(workQueued := false, closing := WorkerClosing(s)), false)
  }

  /** queue_delayed_work: nothing happens if the work item is pending already. */
  function ApplyKickWork(s: State): State
    requires s.wakers > 0
  {
    s.(wakers := s.wakers - 1, workQueued := true, timer := s.timer || !s.workQueued)
  }

  /** cancel_delayed_work stops the timer if it runs; then flush_workqueue begins. */
  function ApplyCancelWork(s: State): State
    requires s.closing.Stopping?
  {
    var queued := s.workQueued && !s.timer;
    s.(workQueued := queued, timer := false, closing := Flushing(s.closing.who, |s.passes|, queued))
  }

  /** flush_workqueue has returned: the context is freed, and its pass, if it was one, goes on. */
  function ApplyFree(s: State): State
    requires s.closing.Flushing? && CallerWaits(s)
  {
    var t := s.(closing := Freed(s.closing.who, s.closing.upTo));
    match s.closing.who
    case ThePass(k) => SetPass(t, k, s.passes[k].(work := Idle))
    case SomebodyElse => t
  }

  /** kick_iocb up to and including the test-and-set. */
  function ApplyKickTest(s: State, i: nat): State
    requires i < |s.reqs|
  {
    var r := s.reqs[i].(owed := true);
    SetReq(s, i, if r.kicked then r else r.(kicked := true, kickers := r.kickers + 1))
  }

  /** queue_kicked_iocb, the locked part. */
  function ApplyKickQueue(s: State, i: nat): State
    requires i < |s.reqs| && s.reqs[i].kickers > 0
  {
    var t := SetReq(s, i, s.reqs[i].(kickers := s.reqs[i].kickers - 1));
    var q := QueueKicked(t, i);
    if t.reqs[i].link.SelfLinked? then q.(wakers := q.wakers + 1) else q
  }

  /** aio_read_evt under ring_lock: copy, then (in a later step) advance head. */
  function ApplyReadCopy(s: State): State
    requires s.ring.Valid()
  {
    if s.ring.head == s.ring.tail then s else s.(reading := Copied(s.ring.slots[s.ring.head]))
  }

  /** io_destroy under ioctx_list_lock. */
  function ApplyUnlist(s: State): State {
    s.(dead := true, onList := false, listPuts := if s.dead then s.listPuts else s.listPuts + 1,
       destroyers := s.destroyers + 1)
  }

  function ApplyReq(s: State, i: nat, op: ReqOp): State
    requires s.ring.Valid() && ReqEnabled(s, i, op)
  {
    var r := s.reqs[i];
    match op
    case SubmitFail(lastFile) => ApplySubmitFail(s, i, lastFile)
    case SubmitQueue => ApplySubmitQueue(s, i)
    case SubmitPut(lastFile) => PutReq(SetReq(s, i, r.(submitting := false)), i, lastFile)
    case KickTest => ApplyKickTest(s, i)
    case KickQueue => ApplyKickQueue(s, i)
    case DriverComplete(res, res2, lastFile) => Complete(s, i, res, res2, lastFile)
    case Cancel => SetReq(s, i, r.(users := r.users + 1, cancelRefs := r.cancelRefs + 1, cancelled := true))
    case CancelDone(lastFile) => PutReq(SetReq(s, i, r.(cancelRefs := r.cancelRefs - 1)), i, lastFile)
    case MarkCancelled => SetReq(s, i, r.(cancelled := true))
    case FputDone => SetReq(s, i, r.(phase := Gone)).(reqsActive := s.reqsActive - 1, reqPuts := s.reqPuts + 1)
  }

  function ApplyPass(s: State, k: nat, op: PassOp): State
    requires s.ring.Valid() && PassEnabled(s, k, op)
  {
    match op
    case Pick => ApplyPick(s, k)
    case CheckCancelled => ApplyCheckCancelled(s, k)
    case CancelComplete => ApplyRetryDone(s, k, -EINTR, 0)
    case HandOff => ApplyHandOff(s, k)
    case RetryDone(res, res2) => ApplyRetryDone(s, k, res, res2)
    case RetryAgain(noWaits) => ApplyRetryAgain(s, k, noWaits)
    case RetryQueued => SetStage(s, k, Returned(false))
    case Finish(lastFile) => ApplyFinish(s, k, lastFile)
    case PassPut => ApplyPassPut(s, k)
    case EndPass => ApplyEndPass(s, k)
    case Requeue => SetPass(s, k, s.passes[k].(work := Done)).(workQueued := true)
  }

  function ApplyCtx(s: State, op: CtxOp): State
    requires s.ring.Valid() && CtxEnabled(s, op)
  {
    match op
    case GetReq(data) => ApplyGetReq(s, data)
    case WorkerStart => ApplyWorkerStart(s)
    case ReaderStart => StartPass(s, true)
    case KickWork => ApplyKickWork(s)
    case TimerFires => s.(timer := false)
    case ReadCopy => ApplyReadCopy(s)
    case ReadAdvance => s.(ring := Pop(s.ring), reaped := s.reaped + [s.reading.event], reading := NoRead)
    case Lookup => s.(lookups := s.lookups + 1, users := s.users + 1)
    case LookupPut => PutCtx(s.(lookups := s.lookups - 1), SomebodyElse)
    case Unlist => ApplyUnlist(s)
    case ListPut => PutCtx(s.(listPuts := s.listPuts - 1, listDrops := s.listDrops + 1), SomebodyElse)
    case DestroyPut => PutCtx(s.(lookups := s.lookups - 1, destroyers := s.destroyers - 1), SomebodyElse)
    case ReqPut => PutCtx(s.(reqPuts := s.reqPuts - 1), SomebodyElse)
    case FputTake => SetReq(s, s.fputs[0], s.reqs[s.fputs[0]].(phase := Fputting)).(fputs := s.fputs[1..])
    case CancelWork => ApplyCancelWork(s)
    case Free => ApplyFree(s)
  }

  function Apply(s: State, step: Step): State
    requires s.ring.Valid() && Enabled(s, step)
  {
    match step
    case OnReq(i, op) => ApplyReq(s, i, op)
    case OnPass(k, op) => ApplyPass(s, k, op)
    case OnCtx(op) => ApplyCtx(s, op)
  }
}
