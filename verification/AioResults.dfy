/** Whole runs of the I/O context, told from their steps. */
module AioResults {
  import opened AioRing
  import opened Aio
  import opened AioInvariant
  import opened AioSteps
  import opened AioTheorems
  import opened AioReports

  /** The events of the completing steps, in order. */
  function Reported(s: State, steps: seq<Step>): seq<Event>
    requires Possible(s, steps)
    decreases |steps|
  {
    if steps == [] then [] else EventOf(s, steps[0]) + Reported(Apply(s, steps[0]), steps[1..])
  }

  /** The user data of the requests admitted, in order. */
  function Admitted(s: State, steps: seq<Step>): seq<int>
    requires Possible(s, steps)
    decreases |steps|
  {
    if steps == [] then [] else DataOf(s, steps[0]) + Admitted(Apply(s, steps[0]), steps[1..])
  }

  /** How often an event was taken from the ring. */
  function Reads(steps: seq<Step>): nat {
    if steps == [] then 0 else B(steps[0] == OnCtx(ReadAdvance)) + Reads(steps[1..])
  }

  /** References to the context taken less those dropped, those of requests aside. */
  function CtxDeltas(steps: seq<Step>): int {
    if steps == [] then 0 else CtxDelta(steps[0]) + CtxDeltas(steps[1..])
  }

  /** References to request j taken less those dropped; it is admitted with two. */
  function UsersDeltas(s: State, steps: seq<Step>, j: nat): int
    requires Possible(s, steps)
    decreases |steps|
  {
    if steps == [] then 0
    else
      (if j < |s.reqs| then UsersDelta(s, steps[0], j)
       else if j == |s.reqs| && DataOf(s, steps[0]) != [] then 2
       else 0)
      + UsersDeltas(Apply(s, steps[0]), steps[1..], j)
  }

  predicate CancelledIn(steps: seq<Step>, j: nat) { exists n :: 0 <= n < |steps| && Cancels(steps[n], j) }

  lemma CancelledFirst(steps: seq<Step>, j: nat)
    requires steps != []
    ensures CancelledIn(steps, j) <==> Cancels(steps[0], j) || CancelledIn(steps[1..], j)
  {
    if CancelledIn(steps[1..], j) {
      var n :| 0 <= n < |steps[1..]| && Cancels(steps[1..][n], j);
      assert steps[n + 1] == steps[1..][n];
    }
    if CancelledIn(steps, j) {
      var n :| 0 <= n < |steps| && Cancels(steps[n], j);
      if n > 0 { assert steps[1..][n - 1] == steps[n]; }
    }
  }

  lemma EffectGives(s: State, step: Step, t: State)
    requires s.ring.Valid() && Enabled(s, step) && Effect(s, step, t)
    ensures CancelOk(t) && t.completed == s.completed + EventOf(s, step)
    ensures |t.reaped| == |s.reaped| + B(step == OnCtx(ReadAdvance)) && Owned(t) == Owned(s) + CtxDelta(step)
    ensures |t.reqs| == |s.reqs| + |DataOf(s, step)|
  {}

  lemma {:induction false} RunReports(s: State, steps: seq<Step>)
    requires Inv(s) && CancelOk(s) && Possible(s, steps)
    ensures var t := After(s, steps);
            && t.completed == s.completed + Reported(s, steps) && |t.reaped| == |s.reaped| + Reads(steps)
            && Owned(t) == Owned(s) + CtxDeltas(steps) && |t.reqs| == |s.reqs| + |Admitted(s, steps)|
    decreases |steps|
  {
    hide Inv, CancelOk, Enabled, Apply, Effect, EventOf, DataOf, CtxDelta, Owned;
    if steps != [] {
      StepEffect(s, steps[0]);
      StepKeeps(s, steps[0]);
      var u := Apply(s, steps[0]);
      EffectGives(s, steps[0], u);
      RunReports(u, steps[1..]);
      assert s.completed + EventOf(s, steps[0]) + Reported(u, steps[1..])
          == s.completed + (EventOf(s, steps[0]) + Reported(u, steps[1..]));
    }
  }

  lemma EffectFollows(s: State, step: Step, t: State, j: nat)
    requires s.ring.Valid() && Enabled(s, step) && Effect(s, step, t)
    ensures |t.reqs| == |s.reqs| + |DataOf(s, step)| && |DataOf(s, step)| <= 1
    ensures j < |s.reqs| ==> Follows(s, step, t, j)
    ensures j == |s.reqs| && DataOf(s, step) != [] ==>
              t.reqs[j].data == DataOf(s, step)[0] && !t.reqs[j].cancelled && t.reqs[j].users == 2
    ensures j >= |s.reqs| ==> !Cancels(step, j)
  {}

  /** What the run says about request j of its last state. */
  ghost predicate Told(s: State, steps: seq<Step>, j: nat)
    requires Possible(s, steps) && |After(s, steps).reqs| == |s.reqs| + |Admitted(s, steps)|
    requires j < |After(s, steps).reqs|
  {
    var r := After(s, steps).reqs[j];
    if j < |s.reqs| then
      && r.data == s.reqs[j].data && r.cancelled == (s.reqs[j].cancelled || CancelledIn(steps, j))
      && r.users == s.reqs[j].users + UsersDeltas(s, steps, j)
    else
      && r.data == Admitted(s, steps)[j - |s.reqs|] && r.cancelled == CancelledIn(steps, j)
      && r.users == UsersDeltas(s, steps, j)
  }

  lemma FirstStep(s: State, steps: seq<Step>, j: nat)
    requires steps != [] && Possible(s, steps)
    ensures s.ring.Valid() && Enabled(s, steps[0])
    ensures var u := Apply(s, steps[0]);
            && Possible(u, steps[1..]) && After(s, steps) == After(u, steps[1..])
            && Admitted(s, steps) == DataOf(s, steps[0]) + Admitted(u, steps[1..])
            && UsersDeltas(s, steps, j) == UsersDeltas(u, steps[1..], j)
               + (if j < |s.reqs| then UsersDelta(s, steps[0], j)
                  else if j == |s.reqs| && DataOf(s, steps[0]) != [] then 2 else 0)
  {
    hide Enabled, Apply, DataOf, UsersDelta;
  }

  /** One step more in front. */
  lemma TellsMore(s: State, steps: seq<Step>, j: nat)
    requires steps != [] && s.ring.Valid() && Enabled(s, steps[0]) && Effect(s, steps[0], Apply(s, steps[0]))
    requires Possible(s, steps) && Possible(Apply(s, steps[0]), steps[1..])
    requires |After(s, steps).reqs| == |s.reqs| + |Admitted(s, steps)| && j < |After(s, steps).reqs|
    requires var u := Apply(s, steps[0]);
             && After(s, steps) == After(u, steps[1..])
             && |After(u, steps[1..]).reqs| == |u.reqs| + |Admitted(u, steps[1..])| && Told(u, steps[1..], j)
    ensures Told(s, steps, j)
  {
    hide Possible, After, Enabled, Apply, Effect, Admitted, UsersDeltas, DataOf, UsersDelta, CancelledIn, Cancels;
    FirstStep(s, steps, j);
    EffectFollows(s, steps[0], Apply(s, steps[0]), j);
    CancelledFirst(steps, j);
  }

  lemma {:induction false} RunTells(s: State, steps: seq<Step>, j: nat)
    requires Inv(s) && CancelOk(s) && Possible(s, steps) && j < |After(s, steps).reqs|
    ensures |After(s, steps).reqs| == |s.reqs| + |Admitted(s, steps)| && Told(s, steps, j)
    decreases |steps|
  {
    RunReports(s, steps);
    if steps != [] {
      hide *;
      FirstStep(s, steps, j);
      StepEffect(s, steps[0]);
      StepKeeps(s, steps[0]);
      EffectGives(s, steps[0], Apply(s, steps[0]));
      RunTells(Apply(s, steps[0]), steps[1..], j);
      TellsMore(s, steps, j);
    } else {
      hide Inv, CancelOk, CancelledIn;
      NotCancelled(j);
    }
  }

  lemma NotCancelled(j: nat)
    ensures !CancelledIn([], j)
  {}

  lemma InitCancelOk(maxReqs: nat, filler: Event)
    ensures CancelOk(Init(maxReqs, filler)) && Owned(Init(maxReqs, filler)) == 1 && Init(maxReqs, filler).reqs == []
    ensures Init(maxReqs, filler).completed == [] && Init(maxReqs, filler).reaped == []
  {}

  /** Over every run: the events reaped and those in the ring are, in order, the events of the completing steps
      whose request was not cancelled, each with the user data and the results of its step; as many are
      reaped as were taken; and the count of the context follows the references taken and dropped. */
  lemma ResultsAreReported(s: State, maxReqs: nat, filler: Event, steps: seq<Step>)
    requires Reached(s, maxReqs, filler, steps)
    ensures var said := Reported(Init(maxReqs, filler), steps);
            && s.completed == said && s.ring.Valid() && s.reaped + Contents(s.ring) == said
            && |s.reaped| == Reads(steps)
    ensures s.users == 1 + |s.reqs| + |s.fputs| + CtxDeltas(steps)
  {
    RingIsQueue(s, maxReqs, filler, steps);
    hide Inv, CancelOk, Possible, After, Init, Contents;
    InitInv(maxReqs, filler);
    InitCancelOk(maxReqs, filler);
    RunReports(Init(maxReqs, filler), steps);
  }

  /** Over every run: request i is the i-th one admitted and keeps its user data; it is cancelled exactly if a
      step cancelled it; and ki_users follows the references taken and dropped. */
  lemma RequestsAreTold(s: State, maxReqs: nat, filler: Event, steps: seq<Step>, i: nat)
    requires Reached(s, maxReqs, filler, steps) && i < |s.reqs|
    ensures |s.reqs| == |Admitted(Init(maxReqs, filler), steps)|
    ensures s.reqs[i].data == Admitted(Init(maxReqs, filler), steps)[i]
    ensures s.reqs[i].cancelled <==> CancelledIn(steps, i)
    ensures s.reqs[i].users == UsersDeltas(Init(maxReqs, filler), steps, i)
  {
    hide Inv, CancelOk, Possible, After, Init, CancelledIn;
    InitInv(maxReqs, filler);
    InitCancelOk(maxReqs, filler);
    RunTells(Init(maxReqs, filler), steps, i);
  }

  lemma {:induction false} CancelAlways(s: State, steps: seq<Step>)
    requires Inv(s) && CancelOk(s) && Possible(s, steps)
    ensures CancelOk(After(s, steps))
    decreases |steps|
  {
    hide Inv, CancelOk, Enabled, Apply, Effect;
    if steps != [] {
      StepEffect(s, steps[0]);
      StepKeeps(s, steps[0]);
      EffectGives(s, steps[0], Apply(s, steps[0]));
      CancelAlways(Apply(s, steps[0]), steps[1..]);
    }
  }

  lemma SamePrefix(a: seq<Event>, b: seq<Event>, c: seq<Event>, d: seq<Event>, e: seq<Event>)
    requires |a| == |b| && b + d == a + c + e
    ensures a == b && d == c + e
  {
    assert (b + d)[..|b|] == b && (a + c + e)[..|a|] == a;
    assert (b + d)[|b|..] == d && (a + c + e)[|a|..] == c + e;
  }

  lemma OnceOnly(s: State, i: nat, n: nat)
    requires Inv(s) && i < |s.reqs| && !s.reqs[i].io.Consumed? && n < |s.completed|
    ensures s.completed[n].obj != i
  {
    hide Structure, WorkOk, FputsOk, Contents, Sum;
    assert EventOk(s.completed[n], s.reqs);
  }

  lemma NotYetConsumed(s: State, step: Step)
    requires Inv(s) && Enabled(s, step) && EventOf(s, step) != []
    ensures EventOf(s, step)[0].obj < |s.reqs| && !s.reqs[EventOf(s, step)[0].obj].io.Consumed?
  {
    hide Inv;
    if step.OnPass? { BusyHas(s, step.k); }
  }

  /** Every step other than the reader's: its event, if it has one, goes behind the unread ones, none of which is
      overwritten, and its request has not completed before. */
  lemma CompletionAppends(s: State, maxReqs: nat, filler: Event, steps: seq<Step>, step: Step)
    requires Reached(s, maxReqs, filler, steps) && s.ring.Valid() && Enabled(s, step) && step != OnCtx(ReadAdvance)
    ensures var t := Apply(s, step);
            && t.completed == s.completed + EventOf(s, step) && t.reaped == s.reaped
            && t.ring.Valid() && Contents(t.ring) == Contents(s.ring) + EventOf(s, step)
    ensures EventOf(s, step) != [] ==>
              forall n: nat :: n < |s.completed| ==> s.completed[n].obj != EventOf(s, step)[0].obj
  {
    ReachedInv(s, maxReqs, filler, steps);
    hide Inv, Possible, After, Init, Enabled, Apply, EventOf, Contents, CancelOk, Effect, DataOf, CtxDelta;
    var start, t := Init(maxReqs, filler), Apply(s, step);
    InitInv(maxReqs, filler);
    InitCancelOk(maxReqs, filler);
    CancelAlways(start, steps);
    StepEffect(s, step);
    EffectGives(s, step, t);
    OneMoreStep(start, steps, step);
    RingIsQueue(s, maxReqs, filler, steps);
    RingIsQueue(t, maxReqs, filler, steps + [step]);
    SamePrefix(s.reaped, t.reaped, Contents(s.ring), Contents(t.ring), EventOf(s, step));
    if EventOf(s, step) != [] {
      NotYetConsumed(s, step);
      forall n: nat | n < |s.completed| ensures s.completed[n].obj != EventOf(s, step)[0].obj {
        OnceOnly(s, EventOf(s, step)[0].obj, n);
      }
    }
  }

  /* ---- Kicks ---- */

  /** The step asks for a retry of request j: it is submitted, kicked, or its retry wants to be called again. */
  predicate Wakes(s: State, step: Step, j: nat) {
    || step == OnReq(j, SubmitQueue) || step == OnReq(j, KickTest)
    || (step.OnPass? && step.passOp == RetryAgain(true) && InHand(s, step.k, j))
  }

  lemma SubmitPends(s: State, j: nat)
    requires j < |s.reqs|
    ensures j < |ApplySubmitQueue(s, j).reqs| && Pending(ApplySubmitQueue(s, j).reqs[j])
  {}

  lemma KickPends(s: State, j: nat)
    requires j < |s.reqs|
    ensures j < |ApplyKickTest(s, j).reqs| && Pending(ApplyKickTest(s, j).reqs[j])
  {}

  lemma AgainPends(s: State, k: nat)
    requires Busy(s, k)
    ensures var j := s.passes[k].work.id;
            j < |ApplyRetryAgain(s, k, true).reqs| && Pending(ApplyRetryAgain(s, k, true).reqs[j])
  {}

  lemma WakePends(s: State, step: Step, j: nat)
    requires s.ring.Valid() && Enabled(s, step) && Wakes(s, step, j)
    ensures j < |Apply(s, step).reqs| && Pending(Apply(s, step).reqs[j])
  {
    hide Pending, ApplySubmitQueue, ApplyKickTest, ApplyRetryAgain, FreeLookup;
    match step
    case OnReq(i, op) =>
      SubmitPends(s, i);
      KickPends(s, i);
    case OnPass(k, op) => AgainPends(s, k);
  }

  /** Some step of the run takes request j off a list and starts a retry of it. */
  ghost predicate StartsAlong(s: State, steps: seq<Step>, j: nat) {
    exists n: nat :: n < |steps| && Possible(s, steps[..n]) && StartsRetry(After(s, steps[..n]), steps[n], j)
  }

  /** Then the pass has the request in hand. */
  lemma StartPutsInHand(s: State, step: Step, j: nat)
    requires s.ring.Valid() && Enabled(s, step) && StartsRetry(s, step, j)
    ensures InHand(Apply(s, step), step.k, j) && Apply(s, step).passes[step.k].work.stage.Entered?
  {}

  lemma StartsFirst(s: State, steps: seq<Step>, j: nat)
    requires steps != [] && StartsRetry(s, steps[0], j)
    ensures StartsAlong(s, steps, j)
  {
    hide StartsRetry;
    assert steps[..0] == [];
    assert After(s, steps[..0]) == s;
  }

  lemma StartsLater(s: State, steps: seq<Step>, j: nat)
    requires steps != [] && s.ring.Valid() && Enabled(s, steps[0]) && StartsAlong(Apply(s, steps[0]), steps[1..], j)
    ensures StartsAlong(s, steps, j)
  {
    hide StartsRetry, Enabled, Apply;
    var u := Apply(s, steps[0]);
    var n: nat :| n < |steps[1..]| && Possible(u, steps[1..][..n])
                  && StartsRetry(After(u, steps[1..][..n]), steps[1..][n], j);
    assert steps[..n + 1][0] == steps[0] && steps[..n + 1][1..] == steps[1..][..n] && steps[n + 1] == steps[1..][n];
  }

  lemma {:induction false} PendingIsServed(s: State, steps: seq<Step>, j: nat)
    requires Inv(s) && CancelOk(s) && Possible(s, steps) && j < |s.reqs|
    ensures j < |After(s, steps).reqs| && (After(s, steps).reqs[j].io.Engine? ==> s.reqs[j].io.Engine?)
    ensures After(s, steps).reqs[j].io.Engine? && Pending(s.reqs[j]) && !StartsAlong(s, steps, j) ==>
              Pending(After(s, steps).reqs[j])
    decreases |steps|
  {
    hide Inv, CancelOk, Enabled, Apply, Effect, StartsAlong, StartsRetry, DataOf, UsersDelta, Pending;
    if steps != [] {
      StepEffect(s, steps[0]);
      StepKeeps(s, steps[0]);
      var u := Apply(s, steps[0]);
      EffectGives(s, steps[0], u);
      EffectFollows(s, steps[0], u, j);
      PendingIsServed(u, steps[1..], j);
      if StartsRetry(s, steps[0], j) { StartsFirst(s, steps, j); }
      if StartsAlong(u, steps[1..], j) { StartsLater(s, steps, j); }
    }
  }

  lemma QuietNotPending(s: State, j: nat)
    requires Inv(s) && Quiet(s) && j < |s.reqs| && s.reqs[j].io.Engine?
    ensures !Pending(s.reqs[j])
  {
    hide Structure, Ledger, WorkOk;
    StructureHas(s, -1, j);
    AllDone(s);
  }

  /** No kick is lost, over every run: if a step wakes request j, and later everything comes to rest with the engine
      still owning j, then a retry of j was started in between. */
  lemma KicksAreServed(maxReqs: nat, filler: Event, before: seq<Step>, wake: Step, between: seq<Step>, j: nat)
    requires Possible(Init(maxReqs, filler), before) && After(Init(maxReqs, filler), before).ring.Valid()
    requires var u := After(Init(maxReqs, filler), before);
             && Enabled(u, wake) && Wakes(u, wake, j) && Possible(Apply(u, wake), between)
             && var t := After(Apply(u, wake), between);
                Quiet(t) && j < |t.reqs| && t.reqs[j].io.Engine?
    ensures StartsAlong(Apply(After(Init(maxReqs, filler), before), wake), between, j)
  {
    hide Inv, CancelOk, Possible, After, Init, Enabled, Apply, Quiet, Wakes, StartsAlong, Pending, Effect;
    var start := Init(maxReqs, filler);
    InitInv(maxReqs, filler);
    InitCancelOk(maxReqs, filler);
    Always(start, before);
    CancelAlways(start, before);
    var u := After(start, before);
    StepEffect(u, wake);
    StepKeeps(u, wake);
    EffectGives(u, wake, Apply(u, wake));
    WakePends(u, wake, j);
    Always(Apply(u, wake), between);
    PendingIsServed(Apply(u, wake), between, j);
    QuietNotPending(After(Apply(u, wake), between), j);
  }

  /** A pass goes on to retry its request exactly if no step has cancelled the request so far. */
  lemma CancelledIsNotRetried(s: State, maxReqs: nat, filler: Event, steps: seq<Step>, k: nat)
    requires Reached(s, maxReqs, filler, steps) && s.ring.Valid() && PassEnabled(s, k, CheckCancelled)
    ensures var t := Apply(s, OnPass(k, CheckCancelled));
            && InHand(t, k, s.passes[k].work.id)
            && t.passes[k].work.stage == if CancelledIn(steps, s.passes[k].work.id) then Cancelling else Retrying
  {
    hide Reached, CancelledIn;
    RequestsAreTold(s, maxReqs, filler, steps, s.passes[k].work.id);
  }

  /** A reader that looks at the ring finds the oldest event not reaped, if there is one. */
  lemma ReaderFindsOldest(s: State, maxReqs: nat, filler: Event, steps: seq<Step>)
    requires Reached(s, maxReqs, filler, steps) && s.ring.Valid() && CtxEnabled(s, ReadCopy)
    ensures var t := Apply(s, OnCtx(ReadCopy));
            if |s.reaped| < |s.completed| then t.reading == Copied(s.completed[|s.reaped|]) else t.reading.NoRead?
  {
    RingIsQueue(s, maxReqs, filler, steps);
    hide Possible, After, Init, FreeLookup;
    var start, t := Init(maxReqs, filler), Apply(s, OnCtx(ReadCopy));
    OneMoreStep(start, steps, OnCtx(ReadCopy));
    if t.reading.Copied? { ReaderGetsOldest(t, maxReqs, filler, steps + [OnCtx(ReadCopy)]); }
    else { EmptyRing(s.ring); }
  }

  lemma EmptyRing(r: Ring)
    requires r.Valid() && r.head == r.tail
    ensures Contents(r) == []
  {}
}
