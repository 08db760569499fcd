/** What every step of the I/O context keeps. */
module AioInvariant {
  import opened Machine
  import opened AioRing
  import opened Aio

  /* ---- One request ---- */

  function B(b: bool): nat { if b then 1 else 0 }

  /** The references somebody is going to drop. */
  function Refs(r: Req): nat {
    B(r.submitting) + B(!r.io.Consumed?) + B(r.at.In?) + r.cancelRefs
  }

  /** The states of a request that can occur; `surplus` references are about to be put. */
  predicate ReqOk(r: Req, surplus: nat) {
    && r.users == Refs(r) + surplus
    && (r.phase.Live? <==> r.users > 0)
    && (r.link.Listed? <==> r.at.Batch?)
    && (r.link.Poisoned? <==> r.io.Abandoned?)
    && (r.at.Batch? || r.link.SelfLinked? ==> r.io.Engine? && !r.unsubmitted)
    && (r.at.In? ==> r.link.Nulled? && !r.unsubmitted)
    && (r.io.Engine? && r.at.Nowhere? && !r.unsubmitted ==> r.link.SelfLinked?)
    && (r.unsubmitted ==> r.io.Engine? && r.at.Nowhere? && r.kickers == 0 && !r.kicked)
    && (r.kicked && r.io.Engine? ==> !r.at.Nowhere? || r.kickers > 0)
    && (r.owed && r.io.Engine? ==> r.kicked)
    && (if r.io.Abandoned? then r.retried == MAX_RETRIES + 2 else r.retried <= MAX_RETRIES + 1)
    && r.retried == r.starts + B(r.io.Abandoned?)
  }

  ghost predicate ReqsOk(reqs: seq<Req>, x: int) {
    forall j: nat :: j < |reqs| ==> ReqOk(reqs[j], B(j == x))
  }

  /* ---- Lists and passes ---- */

  /** `q` lists exactly the requests of batch k, each once. */
  ghost predicate ListOk(q: seq<nat>, reqs: seq<Req>, k: nat) {
    && Distinct(q)
    && (forall i: nat :: i in q ==> i < |reqs| && reqs[i].at == Batch(k))
    && (forall i: nat :: i < |reqs| && reqs[i].at == Batch(k) ==> i in q)
  }

  predicate StageOk(stage: Stage, io: Io) {
    if stage == HandedOff || stage == Returned(false) then io.Driver? || io.Consumed? else io.Engine?
  }

  ghost predicate PassOk(p: Pass, reqs: seq<Req>, k: nat) {
    && ListOk(p.todo, reqs, k)
    && (p.work.Running? ==>
          p.work.id < |reqs| && reqs[p.work.id].at == In(k) && StageOk(p.work.stage, reqs[p.work.id].io))
    && (p.work.Done? || p.work.Requeueing? ==> p.todo == [])
  }

  ghost predicate PassesOk(passes: seq<Pass>, reqs: seq<Req>) {
    forall k: nat :: k < |passes| ==> PassOk(passes[k], reqs, k)
  }

  /** A request that is being retried is being retried by exactly one pass. */
  predicate PlaceOk(at: Place, i: nat, passes: seq<Pass>) {
    match at
    case Nowhere => true
    case Batch(k) => k <= |passes|
    case In(k) => k < |passes| && passes[k].work.Running? && passes[k].work.id == i
  }

  ghost predicate PlacesOk(reqs: seq<Req>, passes: seq<Pass>) {
    forall i: nat :: i < |reqs| ==> PlaceOk(reqs[i].at, i, passes)
  }

  ghost predicate Structure(reqs: seq<Req>, passes: seq<Pass>, runList: seq<nat>, x: int) {
    ReqsOk(reqs, x) && ListOk(runList, reqs, |passes|) && PassesOk(passes, reqs) && PlacesOk(reqs, passes)
  }

  predicate SameBatch(a: Place, b: Place, k: nat) { a == Batch(k) <==> b == Batch(k) }

  /** The request with the surplus reference may become i or stop being i. */
  predicate Moves(x: int, y: int, i: nat) {
    x == y || ((x == -1 || x == i) && (y == -1 || y == i))
  }

  lemma ListUpdate(q: seq<nat>, reqs: seq<Req>, k: nat, i: nat, r: Req)
    requires ListOk(q, reqs, k) && i < |reqs| && (r.at == Batch(k) <==> reqs[i].at == Batch(k))
    ensures ListOk(q, reqs[i := r], k)
  {}

  lemma ListAdd(q: seq<nat>, reqs: seq<Req>, k: nat, i: nat, r: Req)
    requires ListOk(q, reqs, k) && i < |reqs| && reqs[i].at != Batch(k) && r.at == Batch(k)
    ensures ListOk(q + [i], reqs[i := r], k)
  {
    assert (q + [i])[|q|] == i;
    forall j: nat | j < |reqs| && reqs[i := r][j].at == Batch(k) ensures j in q + [i] {}
    forall a: nat | a < |q| ensures q[a] != i { assert q[a] in q; }
  }

  lemma ListPop(q: seq<nat>, reqs: seq<Req>, k: nat, r: Req)
    requires ListOk(q, reqs, k) && q != [] && q[0] < |reqs| && r.at != Batch(k)
    ensures ListOk(q[1..], reqs[q[0] := r], k)
  {
    forall j: nat | j < |reqs| && reqs[q[0] := r][j].at == Batch(k) ensures j in q[1..] {
      assert j in q;
      var n :| 0 <= n < |q| && q[n] == j;
      assert q[1..][n - 1] == j;
    }
    forall j: nat | j in q[1..] ensures j in q && j != q[0] {
      var n :| 0 <= n < |q| - 1 && q[1..][n] == j;
      assert q[n + 1] == j;
    }
  }

  /** A request and the pass that deals with it change together; other passes do not notice. */
  lemma {:induction false} PassesUpdate(passes: seq<Pass>, reqs: seq<Req>, k: nat, p: Pass, i: nat, r: Req)
    requires PassesOk(passes, reqs) && PlacesOk(reqs, passes) && i < |reqs| && k < |passes|
    requires PassOk(p, reqs[i := r], k)
    requires reqs[i].at.In? ==> reqs[i].at == In(k)
    requires forall l: nat :: l < |passes| && l != k ==> SameBatch(r.at, reqs[i].at, l)
    ensures PassesOk(passes[k := p], reqs[i := r])
  {
    var more := passes[k := p];
    forall l: nat | l < |more| ensures PassOk(more[l], reqs[i := r], l) {
      if l != k {
        assert SameBatch(r.at, reqs[i].at, l);
        ListUpdate(passes[l].todo, reqs, l, i, r);
      }
    }
  }

  lemma PlacesUpdate(passes: seq<Pass>, reqs: seq<Req>, k: nat, p: Pass, i: nat, r: Req)
    requires PlacesOk(reqs, passes) && i < |reqs| && k < |passes|
    requires PlaceOk(r.at, i, passes[k := p])
    requires passes[k].work.Running? && passes[k].work.id != i ==> p.work.Running? && p.work.id == passes[k].work.id
    ensures PlacesOk(reqs[i := r], passes[k := p])
  {}

  lemma ReqsUpdate(reqs: seq<Req>, x: int, i: nat, r: Req, y: int)
    requires ReqsOk(reqs, x) && i < |reqs| && ReqOk(r, B(i == y)) && Moves(x, y, i)
    ensures ReqsOk(reqs[i := r], y)
  {}

  /** Request i and pass k change; the run list may gain i. */
  lemma StructureUpdate(reqs: seq<Req>, passes: seq<Pass>, runList: seq<nat>, x: int,
                        i: nat, r: Req, k: nat, p: Pass, queue: bool, y: int)
    requires Structure(reqs, passes, runList, x) && i < |reqs| && k < |passes|
    requires ReqOk(r, B(i == y)) && Moves(x, y, i)
    requires PassOk(p, reqs[i := r], k)
    requires reqs[i].at.In? ==> reqs[i].at == In(k)
    requires forall l: nat :: l < |passes| && l != k ==> SameBatch(r.at, reqs[i].at, l)
    requires PlaceOk(r.at, i, passes[k := p])
    requires passes[k].work.Running? && passes[k].work.id != i ==> p.work.Running? && p.work.id == passes[k].work.id
    requires queue ==> reqs[i].at != Batch(|passes|) && r.at == Batch(|passes|)
    requires !queue ==> (r.at == Batch(|passes|) <==> reqs[i].at == Batch(|passes|))
    ensures Structure(reqs[i := r], passes[k := p], if queue then runList + [i] else runList, y)
  {
    ReqsUpdate(reqs, x, i, r, y);
    PassesUpdate(passes, reqs, k, p, i, r);
    PlacesUpdate(passes, reqs, k, p, i, r);
    if queue { ListAdd(runList, reqs, |passes|, i, r); } else { ListUpdate(runList, reqs, |passes|, i, r); }
  }

  /** Only request i changes. */
  lemma StructureReq(reqs: seq<Req>, passes: seq<Pass>, runList: seq<nat>, x: int, i: nat, r: Req, y: int)
    requires Structure(reqs, passes, runList, x) && i < |reqs|
    requires ReqOk(r, B(i == y)) && Moves(x, y, i)
    requires r.at == reqs[i].at
    requires r.io == reqs[i].io || (reqs[i].io.Driver? && r.io.Consumed?) || !r.at.In?
    ensures Structure(reqs[i := r], passes, runList, y)
  {
    ReqsUpdate(reqs, x, i, r, y);
    ListUpdate(runList, reqs, |passes|, i, r);
    forall k: nat | k < |passes| ensures PassOk(passes[k], reqs[i := r], k) {
      ListUpdate(passes[k].todo, reqs, k, i, r);
    }
  }

  /** Request i, which is nowhere, joins the run list. */
  lemma StructureQueue(reqs: seq<Req>, passes: seq<Pass>, runList: seq<nat>, x: int, i: nat, r: Req)
    requires Structure(reqs, passes, runList, x) && i < |reqs|
    requires ReqOk(r, B(i == x)) && reqs[i].at.Nowhere? && r.at == Batch(|passes|)
    ensures Structure(reqs[i := r], passes, runList + [i], x)
  {
    ReqsUpdate(reqs, x, i, r, x);
    ListAdd(runList, reqs, |passes|, i, r);
    forall k: nat | k < |passes| ensures PassOk(passes[k], reqs[i := r], k) {
      ListUpdate(passes[k].todo, reqs, k, i, r);
    }
  }

  lemma EmptyBatch(reqs: seq<Req>, passes: seq<Pass>)
    requires PlacesOk(reqs, passes)
    ensures ListOk([], reqs, |passes| + 1)
  {}

  /** A new pass takes the whole run list. */
  lemma StructureStart(reqs: seq<Req>, passes: seq<Pass>, runList: seq<nat>, drain: bool)
    requires Structure(reqs, passes, runList, -1)
    ensures Structure(reqs, passes + [Pass(runList, Idle, drain)], [], -1)
  {
    EmptyBatch(reqs, passes);
    var more := passes + [Pass(runList, Idle, drain)];
    forall i: nat | i < |reqs| ensures PlaceOk(reqs[i].at, i, more) {
      assert PlaceOk(reqs[i].at, i, passes);
    }
  }

  /** A pass that has no request in hand goes on to something else, or stops with nothing left. */
  lemma StructureStop(reqs: seq<Req>, passes: seq<Pass>, runList: seq<nat>, k: nat, work: Work)
    requires Structure(reqs, passes, runList, -1) && k < |passes|
    requires !passes[k].work.Running? && !work.Running?
    requires work.Done? || work.Requeueing? ==> passes[k].todo == []
    ensures Structure(reqs, passes[k := passes[k].(work := work)], runList, -1)
  {
    var more := passes[k := passes[k].(work := work)];
    forall l: nat | l < |more| ensures PassOk(more[l], reqs, l) { assert PassOk(passes[l], reqs, l); }
    forall i: nat | i < |reqs| ensures PlaceOk(reqs[i].at, i, more) { assert PlaceOk(reqs[i].at, i, passes); }
  }

  lemma StructureNew(reqs: seq<Req>, passes: seq<Pass>, runList: seq<nat>, r: Req)
    requires Structure(reqs, passes, runList, -1) && ReqOk(r, 0) && r.at.Nowhere?
    ensures Structure(reqs + [r], passes, runList, -1)
  {
    forall k: nat | k < |passes| ensures PassOk(passes[k], reqs + [r], k) { assert PassOk(passes[k], reqs, k); }
  }

  /* ---- Accounting ---- */

  function Sum(reqs: seq<Req>, f: Req -> nat): nat {
    if reqs == [] then 0 else Sum(reqs[..|reqs| - 1], f) + f(reqs[|reqs| - 1])
  }

  lemma {:induction false} SumUpdate(reqs: seq<Req>, f: Req -> nat, i: nat, r: Req)
    requires i < |reqs|
    ensures Sum(reqs[i := r], f) + f(reqs[i]) == Sum(reqs, f) + f(r)
  {
    var n := |reqs| - 1;
    if i == n {
      assert reqs[i := r][..n] == reqs[..n];
    } else {
      assert reqs[i := r][..n] == reqs[..n][i := r];
      SumUpdate(reqs[..n], f, i, r);
    }
  }

  lemma SumAppend(reqs: seq<Req>, f: Req -> nat, r: Req)
    ensures Sum(reqs + [r], f) == Sum(reqs, f) + f(r)
  {
    assert (reqs + [r])[..|reqs|] == reqs;
  }

  lemma {:induction false} SumMonotone(reqs: seq<Req>, f: Req -> nat, g: Req -> nat)
    requires forall j: nat :: j < |reqs| ==> f(reqs[j]) <= g(reqs[j])
    ensures Sum(reqs, f) <= Sum(reqs, g)
  {
    if reqs != [] { SumMonotone(reqs[..|reqs| - 1], f, g); }
  }

  lemma {:induction false} SumAtLeast(reqs: seq<Req>, f: Req -> nat, i: nat)
    requires i < |reqs|
    ensures f(reqs[i]) <= Sum(reqs, f)
  {
    if i < |reqs| - 1 { SumAtLeast(reqs[..|reqs| - 1], f, i); }
  }

  /** A request counts in reqs_active until really_put_req. */
  function Held(r: Req): nat { B(!r.phase.Gone?) }

  /** A request may still need a slot of the ring. */
  function Unconsumed(r: Req): nat { B(!r.io.Consumed?) }

  ghost predicate CountsOk(s: State) {
    && s.reqsActive == Sum(s.reqs, Held)
    && s.users == B(s.onList) + s.listPuts + s.lookups + s.reqPuts + s.reqsActive
    && (s.closing.Open? <==> s.users > 0)
    && (s.onList <==> !s.dead)
    && s.listDrops + s.listPuts + B(s.onList) == 1
  }

  ghost predicate FputsOk(fputs: seq<nat>, reqs: seq<Req>) {
    && Distinct(fputs)
    && (forall i: nat :: i in fputs ==> i < |reqs| && reqs[i].phase.OnFputList?)
    && (forall i: nat :: i < |reqs| && reqs[i].phase.OnFputList? ==> i in fputs)
  }

  /** The ring holds the completions not yet reaped, and has room for all that may still come. */
  ghost predicate RingOk(s: State) {
    && s.ring.Valid()
    && s.completed == s.reaped + Contents(s.ring)
    && (s.reading.Copied? ==> s.lookups > 0 && Contents(s.ring) != [] && s.reading.event == Contents(s.ring)[0])
    && Sum(s.reqs, Unconsumed) + Unread(s.ring) <= s.ring.nr - 1
  }

  /** Every completion is that of one finished request, and of no other. */
  ghost predicate EventsOk(completed: seq<Event>, reqs: seq<Req>) {
    && (forall n: nat :: n < |completed| ==> EventOk(completed[n], reqs))
    && (forall n: nat, m: nat :: n < m < |completed| ==> completed[n].obj != completed[m].obj)
  }

  predicate EventOk(e: Event, reqs: seq<Req>) {
    e.obj < |reqs| && reqs[e.obj].io.Consumed? && e.data == reqs[e.obj].data
  }

  ghost predicate Ledger(s: State) {
    CountsOk(s) && FputsOk(s.fputs, s.reqs) && RingOk(s) && EventsOk(s.completed, s.reqs)
  }

  ghost predicate SomeActive(passes: seq<Pass>) {
    exists k: nat :: k < |passes| && !passes[k].work.Done?
  }

  /** Somebody is going to look at a run list that is not empty. */
  ghost predicate WorkOk(s: State) {
    s.runList != [] ==> s.workQueued || s.wakers > 0 || SomeActive(s.passes)
  }

  ghost predicate InvBut(s: State, x: int) {
    Structure(s.reqs, s.passes, s.runList, x) && Ledger(s) && WorkOk(s)
  }

  ghost predicate Inv(s: State) { InvBut(s, -1) }

  /** A change that neither ends the request nor finishes its I/O leaves the accounts alone. */
  lemma LedgerReq(s: State, i: nat, r: Req)
    requires Ledger(s) && i < |s.reqs|
    requires r.phase == s.reqs[i].phase && r.data == s.reqs[i].data && (r.io.Consumed? <==> s.reqs[i].io.Consumed?)
    ensures Ledger(SetReq(s, i, r))
  {
    hide FputsOk, EventsOk, Contents, Sum;
    SumUpdate(s.reqs, Held, i, r);
    SumUpdate(s.reqs, Unconsumed, i, r);
    EventsReq(s.completed, s.reqs, i, r);
    FputsReq(s.fputs, s.reqs, i, r);
  }

  lemma FputsReq(fputs: seq<nat>, reqs: seq<Req>, i: nat, r: Req)
    requires FputsOk(fputs, reqs) && i < |reqs| && (r.phase.OnFputList? <==> reqs[i].phase.OnFputList?)
    ensures FputsOk(fputs, reqs[i := r])
  {}

  lemma FputsPush(fputs: seq<nat>, reqs: seq<Req>, i: nat, r: Req)
    requires FputsOk(fputs, reqs) && i < |reqs| && !reqs[i].phase.OnFputList? && r.phase.OnFputList?
    ensures FputsOk([i] + fputs, reqs[i := r])
  {
    assert ([i] + fputs)[0] == i;
    forall a: nat | a < |fputs| ensures fputs[a] != i { assert fputs[a] in fputs; }
  }

  lemma FputsPop(fputs: seq<nat>, reqs: seq<Req>, r: Req)
    requires FputsOk(fputs, reqs) && fputs != [] && fputs[0] < |reqs| && !r.phase.OnFputList?
    ensures FputsOk(fputs[1..], reqs[fputs[0] := r])
  {
    var i := fputs[0];
    forall j: nat | j < |reqs| && reqs[i := r][j].phase.OnFputList? ensures j in fputs[1..] {
      assert j in fputs;
      var n :| 0 <= n < |fputs| && fputs[n] == j;
      assert fputs[1..][n - 1] == j;
    }
    forall j: nat | j in fputs[1..] ensures j in fputs && j != i {
      var n :| 0 <= n < |fputs| - 1 && fputs[1..][n] == j;
      assert fputs[n + 1] == j;
    }
  }

  lemma EventsReq(completed: seq<Event>, reqs: seq<Req>, i: nat, r: Req)
    requires EventsOk(completed, reqs) && i < |reqs| && r.data == reqs[i].data
    requires (reqs[i].io.Consumed? ==> r.io.Consumed?)
    ensures EventsOk(completed, reqs[i := r])
  {
    forall n: nat | n < |completed| ensures EventOk(completed[n], reqs[i := r]) { assert EventOk(completed[n], reqs); }
  }

  /** __aio_put_req keeps the accounts. */
  lemma LedgerPut(s: State, i: nat, lastFile: bool)
    requires Ledger(s) && i < |s.reqs| && s.reqs[i].phase.Live? && s.reqs[i].users > 0
    ensures Ledger(PutReq(s, i, lastFile))
  {
    hide FputsOk, EventsOk, Contents, Sum;
    var r := s.reqs[i].(users := s.reqs[i].users - 1);
    if r.users != 0 {
      LedgerReq(s, i, r);
    } else {
      var q := if lastFile then r.(phase := OnFputList) else r.(phase := Gone);
      SumUpdate(s.reqs, Held, i, q);
      SumUpdate(s.reqs, Unconsumed, i, q);
      EventsReq(s.completed, s.reqs, i, q);
      if lastFile { FputsPush(s.fputs, s.reqs, i, q); } else { FputsReq(s.fputs, s.reqs, i, q); }
      SumAtLeast(s.reqs, Held, i);
    }
  }

  /** The event and the end of the I/O reference in aio_complete. */
  function Emit(s: State, i: nat, res: int, res2: int): State
    requires i < |s.reqs| && s.ring.Valid()
  {
    var e := Event(i, s.reqs[i].data, res, res2);
    var c := if s.reqs[i].cancelled then s else s.(ring := Push(s.ring, e), completed := s.completed + [e]);
    SetReq(c, i, c.reqs[i].(io := Consumed))
  }

  /** There is always room for the event, and it goes behind all others. */
  lemma LedgerEmit(s: State, i: nat, res: int, res2: int)
    requires Ledger(s) && i < |s.reqs| && !s.reqs[i].io.Consumed?
    ensures Ledger(Emit(s, i, res, res2))
    ensures Unread(s.ring) < s.ring.nr - 1
    ensures !s.reqs[i].cancelled ==>
              Contents(Emit(s, i, res, res2).ring) == Contents(s.ring) + [Event(i, s.reqs[i].data, res, res2)]
  {
    hide FputsOk, EventsOk, Contents, Sum;
    var r := s.reqs[i].(io := Consumed);
    FputsReq(s.fputs, s.reqs, i, r);
    SumAtLeast(s.reqs, Unconsumed, i);
    SumUpdate(s.reqs, Held, i, r);
    SumUpdate(s.reqs, Unconsumed, i, r);
    EventsReq(s.completed, s.reqs, i, r);
    var e := Event(i, s.reqs[i].data, res, res2);
    if !s.reqs[i].cancelled {
      PushAppends(s.ring, e);
      EventsAdd(s.completed, s.reqs, i, r, e);
    }
  }

  lemma EventsAdd(completed: seq<Event>, reqs: seq<Req>, i: nat, r: Req, e: Event)
    requires EventsOk(completed, reqs) && i < |reqs| && !reqs[i].io.Consumed? && r.io.Consumed?
    requires r.data == reqs[i].data
    requires e.obj == i && e.data == r.data
    ensures EventsOk(completed + [e], reqs[i := r])
  {
    EventsReq(completed, reqs, i, r);
    forall n: nat | n < |completed| ensures completed[n].obj != i { assert EventOk(completed[n], reqs); }
  }
}
