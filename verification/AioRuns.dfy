/** Two runs of fs/aio.c in which the worker outlives the context it works on. */
module AioRuns {
  import opened AioRing
  import opened Aio
  import opened AioInvariant
  import opened AioSteps
  import opened AioTheorems
  import opened AioPasses
  import opened AioClosing

  /** One more step of a run. */
  lemma Go(s: State, maxReqs: nat, filler: Event, steps: seq<Step>, step: Step, t: State) returns (more: seq<Step>)
    requires Reached(s, maxReqs, filler, steps) && s.ring.Valid() && Enabled(s, step) && t == Apply(s, step)
    ensures Reached(t, maxReqs, filler, more)
  {
    OneMoreStep(Init(maxReqs, filler), steps, step);
    more := steps + [step];
  }

  /** One request, one lookup. */
  function Scene(maxReqs: nat, filler: Event, r: Req, passes: seq<Pass>): State {
    Init(maxReqs, filler).(reqs := [r], passes := passes, users := 3, lookups := 1, reqsActive := 1)
  }

  /** The request as io_submit_one prepared it. */
  const PREPARED := Req(2, Nulled, false, false, 0, true, true, Engine, 0, 0, false, Live, Nowhere, 0, 0)

  /** The request after its first retry, waiting for a kick. */
  const WAITING := Req(1, SelfLinked, false, false, 1, false, false, Engine, 0, 0, false, Live, Nowhere, 0, 1)

  /** The pass of the submitter, when it is over. */
  const OVER := Pass([], Done, true)

  lemma InitReached(maxReqs: nat, filler: Event)
    ensures Reached(Init(maxReqs, filler), maxReqs, filler, []) && Init(maxReqs, filler).ring.Valid()
  {}

  lemma PrepareRun(maxReqs: nat, filler: Event) returns (steps: seq<Step>)
    ensures Reached(Scene(maxReqs, filler, PREPARED, []), maxReqs, filler, steps)
  {
    var s := Init(maxReqs, filler);
    InitReached(maxReqs, filler);
    var t := s.(lookups := 1, users := 2);
    steps := Go(s, maxReqs, filler, [], OnCtx(Lookup), t);
    AvailIsFree(t.ring);
    steps := Go(t, maxReqs, filler, steps, OnCtx(GetReq(0)), Scene(maxReqs, filler, PREPARED, []));
  }

  /** The submitter queues the request and retries it; the retry asks for another one. */
  lemma SubmitRun(maxReqs: nat, filler: Event, before: seq<Step>) returns (steps: seq<Step>)
    requires Reached(Scene(maxReqs, filler, PREPARED, []), maxReqs, filler, before)
    ensures Reached(Scene(maxReqs, filler, WAITING.(users := 3, link := Nulled, at := In(0), submitting := true),
                          [Pass([], Running(0, Returned(true)), true)]), maxReqs, filler, steps)
  {
    hide Reached;
    InitReached(maxReqs, filler);
    var a := Scene(maxReqs, filler, PREPARED, []);
    var q := PREPARED.(unsubmitted := false, link := Listed, at := Batch(0));
    var b := Scene(maxReqs, filler, q, [Pass([0], Idle, true)]);
    var r := WAITING.(users := 3, link := Nulled, at := In(0), submitting := true);
    var c := Scene(maxReqs, filler, r, [Pass([], Running(0, Entered), true)]);
    var d := Scene(maxReqs, filler, r, [Pass([], Running(0, Retrying), true)]);
    var e := Scene(maxReqs, filler, r, [Pass([], Running(0, Returned(true)), true)]);
    assert a.runList + [0] == [0];
    assert a.passes + [Pass([0], Idle, true)] == b.passes;
    steps := Go(a, maxReqs, filler, before, OnReq(0, SubmitQueue), b);
    assert b.passes[0].todo[1..] == [];
    steps := Go(b, maxReqs, filler, steps, OnPass(0, Pick), c);
    steps := Go(c, maxReqs, filler, steps, OnPass(0, CheckCancelled), d);
    steps := Go(d, maxReqs, filler, steps, OnPass(0, RetryAgain(false)), e);
  }

  /** The first pass is over and the submitter has let go of the request. */
  lemma FirstPassEnds(maxReqs: nat, filler: Event, before: seq<Step>) returns (steps: seq<Step>)
    requires Reached(Scene(maxReqs, filler, WAITING.(users := 3, link := Nulled, at := In(0), submitting := true),
                           [Pass([], Running(0, Returned(true)), true)]), maxReqs, filler, before)
    ensures Reached(Scene(maxReqs, filler, WAITING, [OVER]), maxReqs, filler, steps)
  {
    hide Reached;
    InitReached(maxReqs, filler);
    var r := WAITING.(users := 3, link := Nulled, at := In(0), submitting := true);
    var a := Scene(maxReqs, filler, r, [Pass([], Running(0, Returned(true)), true)]);
    var b := Scene(maxReqs, filler, WAITING.(users := 2, submitting := true), [Pass([], Idle, true)]);
    var c := Scene(maxReqs, filler, WAITING.(users := 2, submitting := true), [OVER]);
    steps := Go(a, maxReqs, filler, before, OnPass(0, Finish(false)), b);
    steps := Go(b, maxReqs, filler, steps, OnPass(0, EndPass), c);
    steps := Go(c, maxReqs, filler, steps, OnReq(0, SubmitPut(false)), Scene(maxReqs, filler, WAITING, [OVER]));
  }

  /** A kick queues the request, and the worker begins a pass. */
  lemma KickRun(maxReqs: nat, filler: Event, before: seq<Step>) returns (steps: seq<Step>)
    requires Reached(Scene(maxReqs, filler, WAITING, [OVER]), maxReqs, filler, before)
    ensures Reached(Scene(maxReqs, filler, WAITING.(kicked := true, owed := true, link := Listed, at := Batch(1)),
                          [OVER, Pass([0], Idle, false)]), maxReqs, filler, steps)
  {
    hide Reached;
    InitReached(maxReqs, filler);
    var a := Scene(maxReqs, filler, WAITING, [OVER]);
    var b := Scene(maxReqs, filler, WAITING.(kicked := true, owed := true, kickers := 1), [OVER]);
    var r := WAITING.(kicked := true, owed := true, link := Listed, at := Batch(1));
    var c := Scene(maxReqs, filler, r, [OVER]).(runList := [0], wakers := 1);
    var d := c.(wakers := 0, workQueued := true, timer := true);
    var e := d.(timer := false);
    steps := Go(a, maxReqs, filler, before, OnReq(0, KickTest), b);
    steps := Go(b, maxReqs, filler, steps, OnReq(0, KickQueue), c);
    steps := Go(c, maxReqs, filler, steps, OnCtx(KickWork), d);
    steps := Go(d, maxReqs, filler, steps, OnCtx(TimerFires), e);
    steps := Go(e, maxReqs, filler, steps, OnCtx(WorkerStart),
                Scene(maxReqs, filler, r, [OVER, Pass([0], Idle, false)]));
  }

  /** The request as pass k finished it, after n retries. */
  function Completed(k: nat, n: nat): Req {
    WAITING.(link := Nulled, at := In(k), retried := n, starts := n, io := Consumed)
  }

  /** The ring with the event of the request. */
  function OneEvent(maxReqs: nat, filler: Event): Ring { Push(Init(maxReqs, filler).ring, Event(0, 0, 0, 0)) }

  /** A scene after the completion. */
  function Later(maxReqs: nat, filler: Event, r: Req, passes: seq<Pass>): State {
    Scene(maxReqs, filler, r, passes).(ring := OneEvent(maxReqs, filler), completed := [Event(0, 0, 0, 0)])
  }

  /** The last pass of a scene, pass k, finishes the request, which becomes an event. */
  lemma RetryDoneIs(maxReqs: nat, filler: Event, passes: seq<Pass>, drain: bool, n: nat)
    requires |passes| > 0 && Init(maxReqs, filler).ring.Valid()
    ensures var k := |passes|;
            var c := Scene(maxReqs, filler, Completed(k, n).(users := 2, io := Engine),
                           passes + [Pass([], Running(0, Retrying), drain)]);
            && OneEvent(maxReqs, filler).Valid() && PassEnabled(c, k, RetryDone(0, 0))
            && ApplyRetryDone(c, k, 0, 0)
            == Later(maxReqs, filler, Completed(k, n), passes + [Pass([], Running(0, Returned(false)), drain)])
  {
    var k := |passes|;
    var r := Completed(k, n).(users := 2, io := Engine);
    var c := Scene(maxReqs, filler, r, passes + [Pass([], Running(0, Retrying), drain)]);
    var u := SetStage(c, k, Returned(false));
    assert u.passes == passes + [Pass([], Running(0, Returned(false)), drain)];
    CompleteIs(u, 0, 0, 0, false);
    var e := Emit(u, 0, 0, 0);
    assert e.reqs == [r.(io := Consumed)];
    assert PutReq(e, 0, false).reqs == [Completed(k, n)];
  }

  /** Everything up to the worker's pass. */
  lemma WorkerBegins(maxReqs: nat, filler: Event) returns (steps: seq<Step>)
    ensures Reached(Scene(maxReqs, filler, WAITING.(kicked := true, owed := true, link := Listed, at := Batch(1)),
                          [OVER, Pass([0], Idle, false)]), maxReqs, filler, steps)
  {
    hide Reached;
    steps := PrepareRun(maxReqs, filler);
    steps := SubmitRun(maxReqs, filler, steps);
    steps := FirstPassEnds(maxReqs, filler, steps);
    steps := KickRun(maxReqs, filler, steps);
  }

  /** The worker's pass retries the request. */
  lemma WorkerRetries(maxReqs: nat, filler: Event) returns (steps: seq<Step>)
    ensures Reached(Scene(maxReqs, filler, Completed(1, 2).(users := 2, io := Engine),
                          [OVER] + [Pass([], Running(0, Retrying), false)]), maxReqs, filler, steps)
  {
    hide Reached;
    InitReached(maxReqs, filler);
    steps := WorkerBegins(maxReqs, filler);
    var q := WAITING.(kicked := true, owed := true, link := Listed, at := Batch(1));
    var a := Scene(maxReqs, filler, q, [OVER, Pass([0], Idle, false)]);
    var r := Completed(1, 2).(users := 2, io := Engine);
    var b := Scene(maxReqs, filler, r, [OVER, Pass([], Running(0, Entered), false)]);
    var c := Scene(maxReqs, filler, r, [OVER] + [Pass([], Running(0, Retrying), false)]);
    assert a.passes[1].todo[1..] == [];
    steps := Go(a, maxReqs, filler, steps, OnPass(1, Pick), b);
    steps := Go(b, maxReqs, filler, steps, OnPass(1, CheckCancelled), c);
  }

  /* ---- The worker drops the last reference ---- */

  lemma WorkerCompletes(maxReqs: nat, filler: Event) returns (steps: seq<Step>)
    ensures OneEvent(maxReqs, filler).Valid()
    ensures Reached(Later(maxReqs, filler, Completed(1, 2), [OVER] + [Pass([], Running(0, Returned(false)), false)]),
                    maxReqs, filler, steps)
  {
    hide Reached;
    InitReached(maxReqs, filler);
    steps := WorkerRetries(maxReqs, filler);
    var r := Completed(1, 2).(users := 2, io := Engine);
    var a := Scene(maxReqs, filler, r, [OVER] + [Pass([], Running(0, Retrying), false)]);
    RetryDoneIs(maxReqs, filler, [OVER], false, 2);
    steps := Go(a, maxReqs, filler, steps, OnPass(1, RetryDone(0, 0)),
                Later(maxReqs, filler, Completed(1, 2), [OVER] + [Pass([], Running(0, Returned(false)), false)]));
  }

  /** The submitter's lookup ends; io_destroy looks the context up, unlists it, drops the list reference
      and cancels the request, which is active until the pass lets go of it. */
  lemma DestroyerWaits(maxReqs: nat, filler: Event) returns (steps: seq<Step>)
    ensures OneEvent(maxReqs, filler).Valid()
    ensures Reached(Later(maxReqs, filler, Completed(1, 2).(cancelled := true),
                          [OVER] + [Pass([], Running(0, Returned(false)), false)]).(
                      dead := true, onList := false, listDrops := 1, destroyers := 1, users := 2),
                    maxReqs, filler, steps)
  {
    hide Reached, Count;
    steps := WorkerCompletes(maxReqs, filler);
    var a := Later(maxReqs, filler, Completed(1, 2), [OVER] + [Pass([], Running(0, Returned(false)), false)]);
    var b := a.(lookups := 0, users := 2);
    var c := a.(dead := true, onList := false, listPuts := 1, destroyers := 1);
    var d := c.(listPuts := 0, listDrops := 1, users := 2);
    NobodyDrains(a.passes[1]);
    steps := Go(a, maxReqs, filler, steps, OnCtx(LookupPut), b);
    steps := Go(b, maxReqs, filler, steps, OnCtx(Lookup), a);
    steps := Go(a, maxReqs, filler, steps, OnCtx(Unlist), c);
    steps := Go(c, maxReqs, filler, steps, OnCtx(ListPut), d);
    steps := Go(d, maxReqs, filler, steps, OnReq(0, MarkCancelled), d.(reqs := [Completed(1, 2).(cancelled := true)]));
  }

  lemma NobodyDrains(p: Pass)
    requires !p.drain
    ensures Count([OVER] + [p], Drains) == 0
  {
    CountMore([OVER], Drains, p);
    CountMore([], Drains, OVER);
    assert [] + [OVER] == [OVER];
  }

  /** The request when nobody holds it any more. */
  const GONE := Completed(1, 2).(cancelled := true, users := 0, at := Nowhere, phase := Gone)

  /** The context with the given last references. */
  function Last(maxReqs: nat, filler: Event, pass: Pass, lookups: nat, reqPuts: nat, closing: Closing): State {
    Later(maxReqs, filler, GONE, [OVER] + [pass]).(
      dead := true, onList := false, listDrops := 1, reqsActive := 0, users := lookups + reqPuts,
      lookups := lookups, destroyers := lookups, reqPuts := reqPuts, closing := closing)
  }

  /** really_put_req lets wait_for_all_aios return, and the destroyer drops its reference. */
  lemma DestroyerGoes(maxReqs: nat, filler: Event) returns (steps: seq<Step>)
    ensures OneEvent(maxReqs, filler).Valid()
    ensures Reached(Last(maxReqs, filler, Pass([], Putting, false), 0, 1, Open), maxReqs, filler, steps)
  {
    hide Reached, Count;
    steps := DestroyerWaits(maxReqs, filler);
    var r := Completed(1, 2).(cancelled := true);
    var a := Later(maxReqs, filler, r, [OVER] + [Pass([], Running(0, Returned(false)), false)]).(
               dead := true, onList := false, listDrops := 1, destroyers := 1, users := 2);
    var b := Last(maxReqs, filler, Pass([], Putting, false), 1, 1, Open);
    FinishIs(maxReqs, filler, a, b);
    steps := Go(a, maxReqs, filler, steps, OnPass(1, Finish(false)), b);
    NobodyDrains(b.passes[1]);
    steps := Go(b, maxReqs, filler, steps, OnCtx(DestroyPut),
                Last(maxReqs, filler, Pass([], Putting, false), 0, 1, Open));
  }

  lemma FinishIs(maxReqs: nat, filler: Event, a: State, b: State)
    requires a == Later(maxReqs, filler, Completed(1, 2).(cancelled := true),
                        [OVER] + [Pass([], Running(0, Returned(false)), false)]).(
                    dead := true, onList := false, listDrops := 1, destroyers := 1, users := 2)
    requires b == Last(maxReqs, filler, Pass([], Putting, false), 1, 1, Open)
    ensures PassEnabled(a, 1, Finish(false)) && ApplyFinish(a, 1, false) == b
  {
    var t := Leave(a, 1);
    assert t.passes == b.passes;
    assert PutReq(t, 0, false).reqs == [GONE];
  }

  /** put_ioctx in __aio_run_iocbs drops the last reference: the pass is under way on the freed context, and
      looks at its run list next. */
  lemma WorkerFrees(maxReqs: nat, filler: Event) returns (s: State, steps: seq<Step>)
    ensures Reached(s, maxReqs, filler, steps) && s.closing == Freed(ThePass(1), 2)
    ensures s.passes == [OVER] + [Pass([], Idle, false)] && PassEnabled(s, 1, EndPass)
  {
    hide Reached;
    steps := DestroyerGoes(maxReqs, filler);
    var a := Last(maxReqs, filler, Pass([], Putting, false), 0, 1, Open);
    var b := Last(maxReqs, filler, Pass([], Freeing, false), 0, 0, Stopping(ThePass(1)));
    var c := Last(maxReqs, filler, Pass([], Freeing, false), 0, 0, Flushing(ThePass(1), 2, false));
    s := Last(maxReqs, filler, Pass([], Idle, false), 0, 0, Freed(ThePass(1), 2));
    steps := Go(a, maxReqs, filler, steps, OnPass(1, PassPut), b);
    steps := Go(b, maxReqs, filler, steps, OnCtx(CancelWork), c);
    steps := Go(c, maxReqs, filler, steps, OnCtx(Free), s);
  }

  /* ---- The worker queues its work again while flush_workqueue waits ---- */

  const REQUEUEING := Pass([], Requeueing, false)

  /** The retry asks for another one at once, so the pass ends with a request on the run list. */
  lemma WorkerRequeues(maxReqs: nat, filler: Event) returns (steps: seq<Step>)
    ensures Reached(Scene(maxReqs, filler,
                          WAITING.(kicked := true, link := Listed, at := Batch(2), retried := 2, starts := 2),
                          [OVER] + [REQUEUEING]).(runList := [0]), maxReqs, filler, steps)
  {
    hide Reached;
    InitReached(maxReqs, filler);
    steps := WorkerRetries(maxReqs, filler);
    var r := Completed(1, 2).(users := 2, io := Engine);
    var a := Scene(maxReqs, filler, r, [OVER] + [Pass([], Running(0, Retrying), false)]);
    var b := Scene(maxReqs, filler, r.(kicked := true), [OVER] + [Pass([], Running(0, Returned(true)), false)]);
    var q := WAITING.(kicked := true, link := Listed, at := Batch(2), retried := 2, starts := 2);
    var c := Scene(maxReqs, filler, q, [OVER] + [Pass([], Idle, false)]).(runList := [0]);
    steps := Go(a, maxReqs, filler, steps, OnPass(1, RetryAgain(true)), b);
    steps := Go(b, maxReqs, filler, steps, OnPass(1, Finish(false)), c);
    steps := Go(c, maxReqs, filler, steps, OnPass(1, EndPass),
                Scene(maxReqs, filler, q, [OVER] + [REQUEUEING]).(runList := [0]));
  }

  lemma OnlyThis(p: Pass)
    ensures Count([OVER] + [REQUEUEING] + [p], Drains) == B(Drains(p))
    ensures Count([OVER] + [REQUEUEING] + [p], Puts) == B(Puts(p))
    ensures Count([OVER] + [REQUEUEING], Drains) == 0
  {
    CountMore([], Drains, OVER);
    CountMore([], Puts, OVER);
    assert [] + [OVER] == [OVER];
    CountMore([OVER], Drains, REQUEUEING);
    CountMore([OVER], Puts, REQUEUEING);
    CountMore([OVER] + [REQUEUEING], Drains, p);
    CountMore([OVER] + [REQUEUEING], Puts, p);
  }

  /** Before it gets to queue_work, a reader takes the request off the list and finishes it. */
  lemma ReaderRuns(maxReqs: nat, filler: Event) returns (steps: seq<Step>)
    ensures OneEvent(maxReqs, filler).Valid()
    ensures Reached(Later(maxReqs, filler, Completed(2, 3),
                          [OVER] + [REQUEUEING] + [Pass([], Running(0, Returned(false)), true)]),
                    maxReqs, filler, steps)
  {
    hide Reached, Count;
    InitReached(maxReqs, filler);
    steps := WorkerRequeues(maxReqs, filler);
    var two := [OVER] + [REQUEUEING];
    var q := WAITING.(kicked := true, link := Listed, at := Batch(2), retried := 2, starts := 2);
    var a := Scene(maxReqs, filler, q, two).(runList := [0]);
    var b := Scene(maxReqs, filler, q, two + [Pass([0], Idle, true)]);
    var r := Completed(2, 3).(users := 2, io := Engine);
    var c := Scene(maxReqs, filler, r, two + [Pass([], Running(0, Entered), true)]);
    var d := Scene(maxReqs, filler, r, two + [Pass([], Running(0, Retrying), true)]);
    OnlyThis(OVER);
    steps := Go(a, maxReqs, filler, steps, OnCtx(ReaderStart), b);
    assert b.passes[2].todo[1..] == [];
    steps := Go(b, maxReqs, filler, steps, OnPass(2, Pick), c);
    steps := Go(c, maxReqs, filler, steps, OnPass(2, CheckCancelled), d);
    RetryDoneIs(maxReqs, filler, two, true, 3);
    steps := Go(d, maxReqs, filler, steps, OnPass(2, RetryDone(0, 0)),
                Later(maxReqs, filler, Completed(2, 3), two + [Pass([], Running(0, Returned(false)), true)]));
  }

  /** The context after the request, with the reader's pass and the given references. */
  function Quieter(maxReqs: nat, filler: Event, worker: Pass, pass: Pass, users: int, lookups: nat,
                   reqPuts: nat): State {
    Later(maxReqs, filler, Completed(2, 3).(users := 0, at := Nowhere, phase := Gone), [OVER] + [worker] + [pass]).(
      reqsActive := 0, users := users, lookups := lookups, reqPuts := reqPuts)
  }

  lemma ReaderFinishIs(maxReqs: nat, filler: Event, a: State, b: State)
    requires a == Later(maxReqs, filler, Completed(2, 3),
                        [OVER] + [REQUEUEING] + [Pass([], Running(0, Returned(false)), true)])
    requires b == Quieter(maxReqs, filler, REQUEUEING, Pass([], Putting, true), 3, 1, 1)
    ensures PassEnabled(a, 2, Finish(false)) && ApplyFinish(a, 2, false) == b
  {
    var t := Leave(a, 2);
    assert t.passes == b.passes;
    assert PutReq(t, 0, false).reqs == b.reqs;
  }

  lemma ReaderEnds(maxReqs: nat, filler: Event) returns (steps: seq<Step>)
    ensures OneEvent(maxReqs, filler).Valid()
    ensures Reached(Quieter(maxReqs, filler, REQUEUEING, OVER, 2, 1, 0), maxReqs, filler, steps)
  {
    hide Reached;
    steps := ReaderRuns(maxReqs, filler);
    var a := Later(maxReqs, filler, Completed(2, 3),
                   [OVER] + [REQUEUEING] + [Pass([], Running(0, Returned(false)), true)]);
    var b := Quieter(maxReqs, filler, REQUEUEING, Pass([], Putting, true), 3, 1, 1);
    var c := Quieter(maxReqs, filler, REQUEUEING, Pass([], Idle, true), 2, 1, 0);
    ReaderFinishIs(maxReqs, filler, a, b);
    steps := Go(a, maxReqs, filler, steps, OnPass(2, Finish(false)), b);
    steps := Go(b, maxReqs, filler, steps, OnPass(2, PassPut), c);
    steps := Go(c, maxReqs, filler, steps, OnPass(2, EndPass), Quieter(maxReqs, filler, REQUEUEING, OVER, 2, 1, 0));
  }

  /** The context is destroyed in between. */
  lemma DestroyRun(maxReqs: nat, filler: Event) returns (steps: seq<Step>)
    ensures OneEvent(maxReqs, filler).Valid()
    ensures Reached(Quieter(maxReqs, filler, REQUEUEING, OVER, 0, 0, 0).(
                      dead := true, onList := false, listDrops := 1, closing := Stopping(SomebodyElse)),
                    maxReqs, filler, steps)
  {
    hide Reached, Count;
    steps := ReaderEnds(maxReqs, filler);
    OnlyThis(OVER);
    var a := Quieter(maxReqs, filler, REQUEUEING, OVER, 2, 1, 0);
    var b := a.(users := 1, lookups := 0);
    var c := a.(dead := true, onList := false, listPuts := 1, destroyers := 1);
    var d := c.(listPuts := 0, listDrops := 1, users := 1);
    steps := Go(a, maxReqs, filler, steps, OnCtx(LookupPut), b);
    steps := Go(b, maxReqs, filler, steps, OnCtx(Lookup), a);
    steps := Go(a, maxReqs, filler, steps, OnCtx(Unlist), c);
    steps := Go(c, maxReqs, filler, steps, OnCtx(ListPut), d);
    steps := Go(d, maxReqs, filler, steps, OnCtx(DestroyPut),
                d.(users := 0, lookups := 0, destroyers := 0, closing := Stopping(SomebodyElse)));
  }

  /** flush_workqueue waits for the pass, but not for what the pass queues meanwhile: the context is freed
      with its work item in the queue. */
  lemma WorkerComesBack(maxReqs: nat, filler: Event) returns (s: State, steps: seq<Step>)
    ensures Reached(s, maxReqs, filler, steps) && s.closing == Freed(SomebodyElse, 3)
    ensures CtxEnabled(s, WorkerStart)
  {
    hide Reached;
    steps := DestroyRun(maxReqs, filler);
    var a := Quieter(maxReqs, filler, REQUEUEING, OVER, 0, 0, 0).(
               dead := true, onList := false, listDrops := 1, closing := Stopping(SomebodyElse));
    var b := a.(closing := Flushing(SomebodyElse, 3, false));
    var c := b.(passes := [OVER] + [Pass([], Done, false)] + [OVER], workQueued := true);
    s := c.(closing := Freed(SomebodyElse, 3));
    steps := Go(a, maxReqs, filler, steps, OnCtx(CancelWork), b);
    steps := Go(b, maxReqs, filler, steps, OnPass(1, Requeue), c);
    steps := Go(c, maxReqs, filler, steps, OnCtx(Free), s);
  }
}
