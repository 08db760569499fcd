/** Queued requests are retried in turn: nothing overtakes them and nothing removes them. */
module AioProgress {
  import opened AioRing
  import opened Aio
  import opened AioInvariant
  import opened AioSteps

  /** Batch k: the list pass k took, or the context's run list if pass k has yet to start. */
  function ListOf(s: State, k: nat): seq<nat>
    requires k <= |s.passes|
  {
    if k == |s.passes| then s.runList else s.passes[k].todo
  }

  /** How often pass k takes a request off its list. */
  function Picks(steps: seq<Step>, k: nat): nat {
    if steps == [] then 0 else B(steps[0] == OnPass(k, Pick)) + Picks(steps[1..], k)
  }

  /** A step other than a Pick of pass k at most appends to batch k; no step lowers a retry count. */
  ghost predicate Undisturbed(s: State, t: State, k: nat) {
    && k <= |s.passes| <= |t.passes| && ListOf(s, k) <= ListOf(t, k)
    && Counted(s, t)
  }

  ghost predicate Counted(s: State, t: State) {
    |s.reqs| <= |t.reqs| && forall i: nat :: i < |s.reqs| ==> s.reqs[i].retried <= t.reqs[i].retried
  }

  /** The lists and counts of two states agree. */
  ghost predicate SameLists(s: State, t: State) {
    t.passes == s.passes && t.runList == s.runList && |t.reqs| == |s.reqs| &&
    forall i: nat :: i < |s.reqs| ==> t.reqs[i].retried == s.reqs[i].retried
  }

  lemma SetReqSame(s: State, i: nat, r: Req)
    requires i < |s.reqs| && r.retried == s.reqs[i].retried
    ensures SameLists(s, SetReq(s, i, r))
  {}

  lemma SameThen(s: State, t: State, u: State)
    requires SameLists(s, t) && SameLists(t, u)
    ensures SameLists(s, u)
  {}

  lemma ThenSame(s: State, t: State, u: State, k: nat)
    requires Undisturbed(s, t, k) && SameLists(t, u)
    ensures Undisturbed(s, u, k)
  {}

  lemma SameUndisturbed(s: State, t: State, k: nat)
    requires SameLists(s, t) && k <= |s.passes|
    ensures Undisturbed(s, t, k)
  {}

  lemma PutSameLists(s: State, i: nat, lastFile: bool)
    requires i < |s.reqs|
    ensures SameLists(s, PutReq(s, i, lastFile))
  {}

  lemma SetAndPut(s: State, i: nat, r: Req, lastFile: bool, k: nat)
    requires i < |s.reqs| && r.retried == s.reqs[i].retried && k <= |s.passes|
    ensures Undisturbed(s, PutReq(SetReq(s, i, r), i, lastFile), k)
  {
    hide PutReq, SameLists, Undisturbed;
    SetReqSame(s, i, r);
    PutSameLists(SetReq(s, i, r), i, lastFile);
    SameThen(s, SetReq(s, i, r), PutReq(SetReq(s, i, r), i, lastFile));
    SameUndisturbed(s, PutReq(SetReq(s, i, r), i, lastFile), k);
  }

  lemma SetOnly(s: State, i: nat, r: Req, k: nat)
    requires i < |s.reqs| && r.retried == s.reqs[i].retried && k <= |s.passes|
    ensures Undisturbed(s, SetReq(s, i, r), k)
  {}

  lemma CompleteSameLists(s: State, i: nat, res: int, res2: int, lastFile: bool)
    requires i < |s.reqs| && s.ring.Valid() && !s.reqs[i].link.Listed?
    ensures SameLists(s, Complete(s, i, res, res2, lastFile))
  {
    hide Complete, PutReq;
    CompleteIs(s, i, res, res2, lastFile);
    PutSameLists(Emit(s, i, res, res2), i, lastFile);
  }

  lemma ReqStepUndisturbed(s: State, i: nat, op: ReqOp, k: nat)
    requires Inv(s) && s.ring.Valid() && ReqEnabled(s, i, op) && k <= |s.passes|
    ensures Undisturbed(s, ApplyReq(s, i, op), k)
  {
    hide Structure, Ledger, WorkOk, PutReq, SetReq, Complete, SameLists, Undisturbed, QueueKicked, StartPass;
    hide ApplySubmitQueue, ApplyKickQueue;
    StructureHas(s, -1, i);
    var r := s.reqs[i];
    match op
    case SubmitFail(lastFile) =>
      SetAndPut(s, i, if r.submitting then r.(submitting := false) else r.(unsubmitted := false, io := Consumed),
                lastFile, k);
    case SubmitQueue => SubmitQueueUndisturbed(s, i, k);
    case SubmitPut(lastFile) => SetAndPut(s, i, r.(submitting := false), lastFile, k);
    case KickTest => KickTestUndisturbed(s, i, k);
    case KickQueue => KickQueueUndisturbed(s, i, k);
    case DriverComplete(res, res2, lastFile) =>
      CompleteSameLists(s, i, res, res2, lastFile);
      SameUndisturbed(s, Complete(s, i, res, res2, lastFile), k);
    case Cancel => SetOnly(s, i, r.(users := r.users + 1, cancelRefs := r.cancelRefs + 1, cancelled := true), k);
    case CancelDone(lastFile) => SetAndPut(s, i, r.(cancelRefs := r.cancelRefs - 1), lastFile, k);
    case MarkCancelled => SetOnly(s, i, r.(cancelled := true), k);
    case FputDone =>
      var t := SetReq(s, i, r.(phase := Gone));
      SetOnly(s, i, r.(phase := Gone), k);
      SameFields(t, t.(reqsActive := s.reqsActive - 1, reqPuts := s.reqPuts + 1));
      ThenSame(s, t, t.(reqsActive := s.reqsActive - 1, reqPuts := s.reqPuts + 1), k);
  }

  lemma SameFields(s: State, t: State)
    requires t.reqs == s.reqs && t.passes == s.passes && t.runList == s.runList
    ensures SameLists(s, t)
  {}

  lemma KickTestUndisturbed(s: State, i: nat, k: nat)
    requires i < |s.reqs| && k <= |s.passes|
    ensures Undisturbed(s, ApplyKickTest(s, i), k)
  {
    SetOnly(s, i, ApplyKickTest(s, i).reqs[i], k);
  }

  lemma SubmitQueueUndisturbed(s: State, i: nat, k: nat)
    requires i < |s.reqs| && k <= |s.passes|
    ensures Undisturbed(s, ApplySubmitQueue(s, i), k)
  {}

  lemma KickQueueUndisturbed(s: State, i: nat, k: nat)
    requires i < |s.reqs| && s.reqs[i].kickers > 0 && k <= |s.passes|
    ensures Undisturbed(s, ApplyKickQueue(s, i), k)
  {}

  lemma PassStepUndisturbed(s: State, l: nat, op: PassOp, k: nat)
    requires Inv(s) && s.ring.Valid() && PassEnabled(s, l, op) && k <= |s.passes| && (op.Pick? ==> l != k)
    ensures Undisturbed(s, ApplyPass(s, l, op), k)
  {
    hide Inv, Complete, ReqOk, SameLists, Undisturbed, SetReq, SetStage, SetPass;
    hide ApplyPick, ApplyFinish, ApplyEndPass, ApplyPassPut;
    match op
    case Pick => PickUndisturbed(s, l, k);
    case CheckCancelled =>
      StageUndisturbed(s, l, Cancelling, k);
      StageUndisturbed(s, l, Retrying, k);
    case CancelComplete => CompleteUndisturbed(s, l, -EINTR, 0, k);
    case HandOff => HandOffUndisturbed(s, l, k);
    case RetryDone(res, res2) => CompleteUndisturbed(s, l, res, res2, k);
    case RetryAgain(noWaits) => RetryAgainUndisturbed(s, l, noWaits, k);
    case RetryQueued => StageUndisturbed(s, l, Returned(false), k);
    case Finish(lastFile) => FinishUndisturbed(s, l, lastFile, k);
    case PassPut => PassPutUndisturbed(s, l, k);
    case EndPass => EndPassUndisturbed(s, l, k);
    case Requeue => RequeueUndisturbed(s, l, k);
  }

  lemma StageUndisturbed(s: State, l: nat, stage: Stage, k: nat)
    requires Busy(s, l) && k <= |s.passes|
    ensures Undisturbed(s, SetStage(s, l, stage), k)
  {}

  lemma HandOffUndisturbed(s: State, l: nat, k: nat)
    requires Busy(s, l) && k <= |s.passes|
    ensures Undisturbed(s, ApplyHandOff(s, l), k)
  {}

  lemma RetryAgainUndisturbed(s: State, l: nat, noWaits: bool, k: nat)
    requires Busy(s, l) && k <= |s.passes|
    ensures Undisturbed(s, ApplyRetryAgain(s, l, noWaits), k)
  {}

  lemma PassPutUndisturbed(s: State, l: nat, k: nat)
    requires l < |s.passes| && s.reqPuts > 0 && k <= |s.passes|
    ensures Undisturbed(s, ApplyPassPut(s, l), k)
  {}

  lemma EndPassUndisturbed(s: State, l: nat, k: nat)
    requires l < |s.passes| && k <= |s.passes|
    ensures Undisturbed(s, ApplyEndPass(s, l), k)
  {}

  lemma RequeueUndisturbed(s: State, l: nat, k: nat)
    requires l < |s.passes| && k <= |s.passes|
    ensures Undisturbed(s, SetPass(s, l, s.passes[l].(work := Done)).(workQueued := true), k)
  {}

  lemma CompleteUndisturbed(s: State, l: nat, res: int, res2: int, k: nat)
    requires Inv(s) && s.ring.Valid() && Busy(s, l) && s.passes[l].work.stage in {Cancelling, Retrying}
    requires k <= |s.passes|
    ensures Undisturbed(s, Complete(SetStage(s, l, Returned(false)), s.passes[l].work.id, res, res2, false), k)
  {
    hide Inv, Complete, Undisturbed, SameLists;
    BusyNotListed(s, l);
    var t := SetStage(s, l, Returned(false));
    StageUndisturbed(s, l, Returned(false), k);
    CompleteSameLists(t, s.passes[l].work.id, res, res2, false);
    ThenSame(s, t, Complete(t, s.passes[l].work.id, res, res2, false), k);
  }

  lemma BusyNotListed(s: State, k: nat)
    requires Inv(s) && Busy(s, k)
    ensures !s.reqs[s.passes[k].work.id].link.Listed?
  {
    hide Inv;
    BusyHas(s, k);
  }

  lemma PickIs(s: State, k: nat)
    requires PassEnabled(s, k, Pick)
    ensures SameLists(Picked(s, k), ApplyPick(s, k))
  {
    hide PutReq, Picked, SameLists;
    PickedKeepsLength(s, k);
    PutSameLists(Picked(s, k), s.passes[k].todo[0], false);
    SameFields(Picked(s, k), Picked(s, k));
  }

  lemma PickedKeepsLength(s: State, k: nat)
    requires PassEnabled(s, k, Pick)
    ensures |Picked(s, k).reqs| == |s.reqs|
  {}

  lemma PickUndisturbed(s: State, l: nat, k: nat)
    requires PassEnabled(s, l, Pick) && k <= |s.passes| && l != k
    ensures Undisturbed(s, ApplyPick(s, l), k)
  {
    hide ApplyPick;
    PickIs(s, l);
    PickedUndisturbed(s, l, k);
    ThenSame(s, Picked(s, l), ApplyPick(s, l), k);
  }

  lemma PickedUndisturbed(s: State, l: nat, k: nat)
    requires PassEnabled(s, l, Pick) && k <= |s.passes| && l != k
    ensures Undisturbed(s, Picked(s, l), k)
  {}

  /** Picking takes the first request and counts a retry for it. */
  lemma PickTakesFirst(s: State, k: nat)
    requires PassEnabled(s, k, Pick)
    ensures var t := ApplyPick(s, k);
            && k < |t.passes| == |s.passes| && ListOf(t, k) == ListOf(s, k)[1..] && Counted(s, t)
            && t.reqs[ListOf(s, k)[0]].retried == s.reqs[ListOf(s, k)[0]].retried + 1
  {
    hide ApplyPick;
    PickIs(s, k);
  }

  lemma FinishUndisturbed(s: State, l: nat, lastFile: bool, k: nat)
    requires PassEnabled(s, l, Finish(lastFile)) && k <= |s.passes|
    ensures Undisturbed(s, ApplyFinish(s, l, lastFile), k)
  {
    hide PutReq, Relink, Leave, Left, Undisturbed, SameLists;
    var i := s.passes[l].work.id;
    var r := s.reqs[i];
    LeaveIs(s, l);
    RelinkIs(s, l);
    LeftUndisturbed(s, l, r.(at := Nowhere), false, k);
    LeftUndisturbed(s, l, r.(link := SelfLinked, at := Nowhere), false, k);
    LeftUndisturbed(s, l, r.(link := Listed, at := Batch(|s.passes|)), true, k);
    var u := if s.passes[l].work.stage.again then Relink(Leave(s, l), i) else Leave(s, l);
    PutSameLists(u, i, lastFile);
    ThenSame(s, u, PutReq(u, i, lastFile), k);
  }

  lemma LeftUndisturbed(s: State, l: nat, r: Req, queue: bool, k: nat)
    requires Busy(s, l) && k <= |s.passes| && r.retried == s.reqs[s.passes[l].work.id].retried
    ensures Undisturbed(s, Left(s, l, r, queue), k) && |Left(s, l, r, queue).reqs| == |s.reqs|
  {}

  lemma CtxStepUndisturbed(s: State, op: CtxOp, k: nat)
    requires s.ring.Valid() && CtxEnabled(s, op) && k <= |s.passes|
    ensures Undisturbed(s, ApplyCtx(s, op), k)
  {
    hide FreeLookup, DestroyerReady, Count, Undisturbed, SameLists, ApplyGetReq, StartPass, ApplyFree, PutCtx;
    match op
    case GetReq(data) => GetReqUndisturbed(s, data, k);
    case WorkerStart =>
      StartUndisturbed(s, s.(workQueued := false, closing := WorkerClosing(s)), false, k);
    case ReaderStart => StartUndisturbed(s, s, true, k);
    case FputTake =>
      var t := SetReq(s, s.fputs[0], s.reqs[s.fputs[0]].(phase := Fputting));
      SetOnly(s, s.fputs[0], s.reqs[s.fputs[0]].(phase := Fputting), k);
      SameFields(t, t.(fputs := s.fputs[1..]));
      ThenSame(s, t, t.(fputs := s.fputs[1..]), k);
    case Free => FreeUndisturbed(s, k);
    case _ =>
      ListsKept(s, op);
      SameFields(s, ApplyCtx(s, op));
      SameUndisturbed(s, ApplyCtx(s, op), k);
  }

  lemma ListsKept(s: State, op: CtxOp)
    requires s.ring.Valid() && CtxEnabled(s, op)
    requires !op.GetReq? && !op.WorkerStart? && !op.ReaderStart? && !op.FputTake? && !op.Free?
    ensures var t := ApplyCtx(s, op); t.reqs == s.reqs && t.passes == s.passes && t.runList == s.runList
  {
    hide DestroyerReady, Count, PutCtx, Pop;
    match op
    case LookupPut => PutListsKept(s.(lookups := s.lookups - 1));
    case ListPut => PutListsKept(s.(listPuts := s.listPuts - 1, listDrops := s.listDrops + 1));
    case DestroyPut =>
      DestroyerKnown(s);
      PutListsKept(s.(lookups := s.lookups - 1, destroyers := s.destroyers - 1));
    case ReqPut => PutListsKept(s.(reqPuts := s.reqPuts - 1));
    case _ =>
  }

  lemma PutListsKept(s: State)
    ensures var t := PutCtx(s, SomebodyElse); t.reqs == s.reqs && t.passes == s.passes && t.runList == s.runList
  {}

  lemma FreeUndisturbed(s: State, k: nat)
    requires s.closing.Flushing? && CallerWaits(s) && k <= |s.passes|
    ensures Undisturbed(s, ApplyFree(s), k)
  {}

  lemma GetReqUndisturbed(s: State, data: int, k: nat)
    requires s.ring.Valid() && k <= |s.passes|
    ensures Undisturbed(s, ApplyGetReq(s, data), k)
  {}

  lemma StartUndisturbed(s: State, t: State, drain: bool, k: nat)
    requires k <= |s.passes| && t.reqs == s.reqs && t.passes == s.passes && t.runList == s.runList
    ensures Undisturbed(s, StartPass(t, drain), k)
  {}

  lemma StepUndisturbed(s: State, step: Step, k: nat)
    requires Inv(s) && s.ring.Valid() && Enabled(s, step) && k <= |s.passes| && step != OnPass(k, Pick)
    ensures Undisturbed(s, Apply(s, step), k)
  {
    hide Inv, Undisturbed, ApplyReq, ApplyPass, ApplyCtx;
    match step
    case OnReq(i, op) => ReqStepUndisturbed(s, i, op, k);
    case OnPass(l, op) => PassStepUndisturbed(s, l, op, k);
    case OnCtx(op) => CtxStepUndisturbed(s, op, k);
  }

  lemma {:induction false} CountsGrow(s: State, steps: seq<Step>)
    requires Inv(s) && Possible(s, steps)
    ensures Counted(s, After(s, steps))
    decreases |steps|
  {
    hide Inv, Enabled, Apply;
    if steps != [] {
      StepKeeps(s, steps[0]);
      StepCounts(s, steps[0]);
      CountsGrow(Apply(s, steps[0]), steps[1..]);
    }
  }

  lemma StepCounts(s: State, step: Step)
    requires Inv(s) && s.ring.Valid() && Enabled(s, step)
    ensures Counted(s, Apply(s, step))
  {
    hide Inv, ApplyReq, ApplyPass, ApplyCtx, Counted;
    if step.OnPass? && step.passOp.Pick? {
      PickTakesFirst(s, step.k);
      PassStepIsPick(s, step.k);
    } else {
      StepUndisturbed(s, step, |s.passes|);
    }
  }

  lemma PassStepIsPick(s: State, k: nat)
    requires s.ring.Valid() && PassEnabled(s, k, Pick)
    ensures ApplyPass(s, k, Pick) == ApplyPick(s, k)
  {}

  /** In every run, a request with n others before it in its batch has had another retry started, or
      was given up at the retry cap, by the time the pass of that batch has made n + 1 picks. */
  lemma ServedInTurn(s: State, steps: seq<Step>, k: nat, n: nat)
    requires Inv(s) && Possible(s, steps) && k <= |s.passes| && n < |ListOf(s, k)| && n < Picks(steps, k)
    ensures ListOf(s, k)[n] < |s.reqs| <= |After(s, steps).reqs|
    ensures var r, r' := s.reqs[ListOf(s, k)[n]], After(s, steps).reqs[ListOf(s, k)[n]];
            r'.starts > r.starts || r'.io.Abandoned?
  {
    hide Inv, ListOf, After, Possible, Picks;
    PickedInTurn(s, steps, k, n);
    Always(s, steps);
    StartsCounted(s, ListOf(s, k)[n]);
    StartsCounted(After(s, steps), ListOf(s, k)[n]);
  }

  lemma StartsCounted(s: State, i: nat)
    requires Inv(s) && i < |s.reqs|
    ensures s.reqs[i].retried == s.reqs[i].starts + B(s.reqs[i].io.Abandoned?)
  {
    hide Structure, Ledger, WorkOk;
    StructureHas(s, -1, i);
  }

  /** By then it has been picked: ki_retried has grown. */
  lemma {:induction false} PickedInTurn(s: State, steps: seq<Step>, k: nat, n: nat)
    requires Inv(s) && Possible(s, steps) && k <= |s.passes| && n < |ListOf(s, k)| && n < Picks(steps, k)
    ensures ListOf(s, k)[n] < |s.reqs| <= |After(s, steps).reqs|
    ensures After(s, steps).reqs[ListOf(s, k)[n]].retried > s.reqs[ListOf(s, k)[n]].retried
    decreases |steps|
  {
    hide Inv, Apply, Enabled, ListOf;
    var t := Apply(s, steps[0]);
    var i := ListOf(s, k)[n];
    BatchIsKnown(s, k, n);
    StepKeeps(s, steps[0]);
    if steps[0] == OnPass(k, Pick) {
      PickFirst(s, k);
      if n == 0 { CountsGrow(t, steps[1..]); } else { PickedInTurn(t, steps[1..], k, n - 1); }
    } else {
      StepUndisturbed(s, steps[0], k);
      PickedInTurn(t, steps[1..], k, n);
    }
  }

  lemma PickFirst(s: State, k: nat)
    requires s.ring.Valid() && k <= |s.passes| && Enabled(s, OnPass(k, Pick)) && ListOf(s, k) != []
    ensures var t := Apply(s, OnPass(k, Pick));
            && k <= |t.passes| && ListOf(t, k) == ListOf(s, k)[1..] && Counted(s, t)
            && ListOf(s, k)[0] < |s.reqs|
            && t.reqs[ListOf(s, k)[0]].retried == s.reqs[ListOf(s, k)[0]].retried + 1
  {
    hide ApplyPick;
    PickTakesFirst(s, k);
  }

  lemma BatchIsKnown(s: State, k: nat, n: nat)
    requires Inv(s) && k <= |s.passes| && n < |ListOf(s, k)|
    ensures ListOf(s, k)[n] < |s.reqs|
  {
    hide Ledger, WorkOk;
    if k < |s.passes| { PassHas(s, k); }
    assert ListOf(s, k)[n] in ListOf(s, k);
  }
}
