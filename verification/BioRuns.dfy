/**
 fs/bio.c: the two halves of a split bio and its submitter, each in its own thread.  Ending some
 bytes of a half, storing its error, looking at its size, dropping the count and ending the master
 are separate steps, and the steps of the three interleave freely.
 */
module BioRuns {
  import opened BioSplit

  /** Where a party is: waiting for I/O, about to store its error, about to look at its size, about to
      drop the count, about to end the master, or done. */
  datatype Stage = Waiting | Storing(err: int) | Looking | Dropping | Ending | Done

  /** `left` is the bi_size of a half. */
  datatype Party = Party(left: nat, at: Stage)

  /** The pair and its master.  Parties 0 and 1 are the halves, party 2 is the submitter; `reported` is
      what bio_endio was told about the halves so far. */
  datatype State = State(parties: seq<Party>, cnt: int, error: int,
                         size: nat, uptodate: bool, ends: seq<Ended>, reported: seq<int>)

  datatype Step =
    | Report(p: nat, bytes: nat, err: int)
    | Store(p: nat)
    | Look(p: nat)
    | Drop(p: nat)
    | End(p: nat)

  predicate At(s: State, p: nat, at: Stage) { p < |s.parties| && s.parties[p].at == at }

  predicate Enabled(s: State, step: Step) {
    match step
    case Report(p, _, _) => At(s, p, Waiting)
    case Store(p) => p < |s.parties| && s.parties[p].at.Storing?
    case Look(p) => At(s, p, Looking)
    case Drop(p) => At(s, p, Dropping)
    case End(p) => At(s, p, Ending)
  }

  function Move(s: State, p: nat, x: Party): State
    requires p < |s.parties|
  {
    s.(parties := s.parties[p := x])
  }

  function Apply(s: State, step: Step): State
    requires Enabled(s, step)
  {
    var x := s.parties[step.p];
    match step
    case Report(p, bytes, err) =>
      Move(s, p, Party(if bytes > x.left then 0 else x.left - bytes, Storing(err))).(reported := s.reported + [err])
    case Store(p) => Move(s, p, x.(at := Looking)).(error := if x.at.err != 0 then x.at.err else s.error)
    case Look(p) => Move(s, p, x.(at := if x.left != 0 then Waiting else Dropping))
    case Drop(p) => Move(s, p, x.(at := if s.cnt == 1 then Ending else Done)).(cnt := s.cnt - 1)
    case End(p) =>
      Move(s, p, x.(at := Done)).(size := 0, uptodate := s.uptodate && s.error == 0,
                                  ends := s.ends + [Ended(s.size, s.error)])
  }

  /** After bio_split: both halves in I/O, the submitter about to let go. */
  function Fresh(h: Halves, size: nat, uptodate: bool): State {
    State([Party(h.size1, Waiting), Party(h.size2, Waiting), Party(0, Dropping)], 3, 0, size, uptodate, [], [])
  }

  /* ---- What every step keeps ---- */

  predicate Holds(x: Party) { !x.at.Ending? && !x.at.Done? }

  function One(x: Party): nat { if Holds(x) then 1 else 0 }

  function Holders(ps: seq<Party>): nat
    requires |ps| == 3
  {
    One(ps[0]) + One(ps[1]) + One(ps[2])
  }

  predicate Nonzero(errors: seq<int>) { exists k :: 0 <= k < |errors| && errors[k] != 0 }

  /** Some half still has an error to store. */
  predicate Pending(s: State) {
    exists p :: 0 <= p < |s.parties| && s.parties[p].at.Storing? && s.parties[p].at.err != 0
  }

  /** The master has not ended, or it has, once. */
  predicate MasterOk(s: State, size: nat, uptodate: bool) {
    if s.ends == [] then
      && s.size == size && s.uptodate == uptodate
      && (s.cnt > 0 || exists p :: 0 <= p < |s.parties| && s.parties[p].at.Ending?)
    else
      && s.cnt == 0 && s.ends == [Ended(size, s.error)] && s.size == 0 && s.uptodate == (uptodate && s.error == 0)
      && forall p :: 0 <= p < |s.parties| ==> s.parties[p].at.Done?
  }

  predicate PartyOk(x: Party) { x.at.Dropping? || x.at.Ending? || x.at.Done? ==> x.left == 0 }

  ghost predicate Inv(s: State, size: nat, uptodate: bool) {
    && |s.parties| == 3 && s.cnt == Holders(s.parties)
    && (forall p :: 0 <= p < 3 ==> PartyOk(s.parties[p]) && (s.parties[p].at.Ending? ==> s.cnt == 0))
    && (forall p, q :: 0 <= p < q < 3 ==> !(s.parties[p].at.Ending? && s.parties[q].at.Ending?))
    && (s.error == 0 || s.error in s.reported)
    && (forall p :: 0 <= p < 3 && s.parties[p].at.Storing? ==> s.parties[p].at.err in s.reported)
    && (s.error != 0 || Pending(s) <==> Nonzero(s.reported))
    && MasterOk(s, size, uptodate)
  }

  lemma HoldersMove(ps: seq<Party>, p: nat, x: Party)
    requires |ps| == 3 && p < 3
    ensures Holders(ps[p := x]) == Holders(ps) - One(ps[p]) + One(x)
  {}

  lemma NonzeroMore(errors: seq<int>, e: int)
    ensures Nonzero(errors + [e]) <==> Nonzero(errors) || e != 0
  {
    if e != 0 { assert (errors + [e])[|errors|] == e; }
    if Nonzero(errors) {
      var k :| 0 <= k < |errors| && errors[k] != 0;
      assert (errors + [e])[k] == errors[k];
    }
  }

  /** What becomes of the errors still to be stored when party p moves. */
  lemma PendingMove(s: State, t: State, p: nat, x: Party)
    requires p < |s.parties| && t.parties == s.parties[p := x]
    ensures s.parties[p].at.Storing? && s.parties[p].at.err != 0 ==> Pending(s)
    ensures x.at.Storing? && x.at.err != 0 ==> Pending(t)
    ensures !(s.parties[p].at.Storing? && s.parties[p].at.err != 0) && !(x.at.Storing? && x.at.err != 0)
            ==> Pending(t) == Pending(s)
    ensures Pending(s) ==> Pending(t) || (s.parties[p].at.Storing? && s.parties[p].at.err != 0)
    ensures Pending(t) ==> Pending(s) || (x.at.Storing? && x.at.err != 0)
  {
    if x.at.Storing? && x.at.err != 0 { assert t.parties[p] == x; }
    if Pending(s) {
      var q :| 0 <= q < |s.parties| && s.parties[q].at.Storing? && s.parties[q].at.err != 0;
      assert q == p || t.parties[q] == s.parties[q];
    }
  }

  lemma ReportKeeps(s: State, size: nat, uptodate: bool, p: nat, bytes: nat, err: int)
    requires Inv(s, size, uptodate) && At(s, p, Waiting)
    ensures Inv(Apply(s, Report(p, bytes, err)), size, uptodate)
  {
    var t := Apply(s, Report(p, bytes, err));
    HoldersMove(s.parties, p, t.parties[p]);
    NonzeroMore(s.reported, err);
    PendingMove(s, t, p, t.parties[p]);
  }

  lemma StoreKeeps(s: State, size: nat, uptodate: bool, p: nat)
    requires Inv(s, size, uptodate) && p < 3 && s.parties[p].at.Storing?
    ensures Inv(Apply(s, Store(p)), size, uptodate)
  {
    var t := Apply(s, Store(p));
    HoldersMove(s.parties, p, t.parties[p]);
    PendingMove(s, t, p, t.parties[p]);
  }

  lemma LookKeeps(s: State, size: nat, uptodate: bool, p: nat)
    requires Inv(s, size, uptodate) && At(s, p, Looking)
    ensures Inv(Apply(s, Look(p)), size, uptodate)
  {
    var t := Apply(s, Look(p));
    HoldersMove(s.parties, p, t.parties[p]);
    PendingMove(s, t, p, t.parties[p]);
  }

  /** Only one party can find that it dropped the count to zero. */
  lemma DropKeeps(s: State, size: nat, uptodate: bool, p: nat)
    requires Inv(s, size, uptodate) && At(s, p, Dropping)
    ensures Inv(Apply(s, Drop(p)), size, uptodate)
  {
    var t := Apply(s, Drop(p));
    HoldersMove(s.parties, p, t.parties[p]);
    PendingMove(s, t, p, t.parties[p]);
    if s.cnt == 1 { assert t.parties[p].at.Ending?; }
  }

  lemma EndKeeps(s: State, size: nat, uptodate: bool, p: nat)
    requires Inv(s, size, uptodate) && At(s, p, Ending)
    ensures Inv(Apply(s, End(p)), size, uptodate)
  {
    var t := Apply(s, End(p));
    HoldersMove(s.parties, p, t.parties[p]);
    PendingMove(s, t, p, t.parties[p]);
    assert s.parties[0].at.Ending? || s.parties[1].at.Ending? || s.parties[2].at.Ending?;
  }

  lemma StepKeeps(s: State, step: Step, size: nat, uptodate: bool)
    requires Inv(s, size, uptodate) && Enabled(s, step)
    ensures Inv(Apply(s, step), size, uptodate)
  {
    hide Inv, Apply;
    InvSize(s, size, uptodate);
    match step
    case Report(p, bytes, err) => ReportKeeps(s, size, uptodate, p, bytes, err);
    case Store(p) => StoreKeeps(s, size, uptodate, p);
    case Look(p) => LookKeeps(s, size, uptodate, p);
    case Drop(p) => DropKeeps(s, size, uptodate, p);
    case End(p) => EndKeeps(s, size, uptodate, p);
  }

  lemma InvSize(s: State, size: nat, uptodate: bool)
    requires Inv(s, size, uptodate)
    ensures |s.parties| == 3
  {}

  /* ---- Runs ---- */

  predicate Possible(s: State, steps: seq<Step>)
    decreases |steps|
  {
    steps == [] || (Enabled(s, steps[0]) && Possible(Apply(s, steps[0]), steps[1..]))
  }

  function After(s: State, steps: seq<Step>): State
    requires Possible(s, steps)
    decreases |steps|
  {
    if steps == [] then s else After(Apply(s, steps[0]), steps[1..])
  }

  lemma {:induction false} Always(s: State, steps: seq<Step>, size: nat, uptodate: bool)
    requires Inv(s, size, uptodate) && Possible(s, steps)
    ensures Inv(After(s, steps), size, uptodate)
    decreases |steps|
  {
    hide Inv;
    if steps != [] {
      StepKeeps(s, steps[0], size, uptodate);
      Always(Apply(s, steps[0]), steps[1..], size, uptodate);
    }
  }

  lemma {:induction false} OneMore(s: State, steps: seq<Step>, step: Step)
    requires Possible(s, steps + [step])
    ensures Possible(s, steps) && Enabled(After(s, steps), step)
    ensures After(s, steps + [step]) == Apply(After(s, steps), step)
    decreases |steps|
  {
    hide Enabled, Apply;
    if steps == [] {
      assert [] + [step] == [step];
    } else {
      assert (steps + [step])[1..] == steps[1..] + [step];
      OneMore(Apply(s, steps[0]), steps[1..], step);
    }
  }

  /* ---- What the steps of a run say ---- */

  /** The bytes bio_endio was told of half p. */
  function Told(steps: seq<Step>, p: nat): nat {
    if steps == [] then 0
    else
      var n, last := |steps| - 1, steps[|steps| - 1];
      Told(steps[..n], p) + if last.Report? && last.p == p then last.bytes else 0
  }

  /** bio_endio was called for half p at all. */
  predicate Touched(steps: seq<Step>, p: nat) { exists k :: 0 <= k < |steps| && steps[k].Report? && steps[k].p == p }

  /** The errors that bio_endio was told of, in order. */
  function Errors(steps: seq<Step>): seq<int> {
    if steps == [] then []
    else
      var n, last := |steps| - 1, steps[|steps| - 1];
      Errors(steps[..n]) + if last.Report? then [last.err] else []
  }

  /** The error of the last report about half p. */
  function LastOf(steps: seq<Step>, p: nat): int {
    if steps == [] then 0
    else
      var n, last := |steps| - 1, steps[|steps| - 1];
      if last.Report? && last.p == p then last.err else LastOf(steps[..n], p)
  }

  /** The error that was stored last: a half stores the one of its last report, unless that is 0. */
  function LastStored(steps: seq<Step>): int {
    if steps == [] then 0
    else
      var n, last := |steps| - 1, steps[|steps| - 1];
      if last.Store? && LastOf(steps[..n], last.p) != 0 then LastOf(steps[..n], last.p) else LastStored(steps[..n])
  }

  function HalfSize(h: Halves, p: nat): nat { if p == 0 then h.size1 else if p == 1 then h.size2 else 0 }

  /** bi_size of a party is what was not told of it; it stores the error of its last report; it lets go once
      everything was told; and it waits before the first report, or with something left. */
  predicate PartyMeans(h: Halves, steps: seq<Step>, p: nat, x: Party) {
    && x.left == (if Told(steps, p) >= HalfSize(h, p) then 0 else HalfSize(h, p) - Told(steps, p))
    && (x.at.Storing? ==> x.at.err == LastOf(steps, p))
    && (x.at.Dropping? || x.at.Ending? || x.at.Done? ==> Told(steps, p) >= HalfSize(h, p))
    && (x.at.Waiting? && Touched(steps, p) ==> Told(steps, p) < HalfSize(h, p))
  }

  ghost predicate Means(h: Halves, steps: seq<Step>, s: State) {
    && |s.parties| == 3 && s.error == LastStored(steps) && s.reported == Errors(steps)
    && forall p: nat :: p < 3 ==> PartyMeans(h, steps, p, s.parties[p])
  }

  lemma AddOne(steps: seq<Step>, step: Step, p: nat)
    ensures var more := steps + [step];
            && Told(more, p) == Told(steps, p) + (if step.Report? && step.p == p then step.bytes else 0)
            && (Touched(more, p) <==> Touched(steps, p) || (step.Report? && step.p == p))
            && LastOf(more, p) == (if step.Report? && step.p == p then step.err else LastOf(steps, p))
            && Errors(more) == Errors(steps) + (if step.Report? then [step.err] else [])
            && LastStored(more) == if step.Store? && LastOf(steps, step.p) != 0 then LastOf(steps, step.p)
                                   else LastStored(steps)
  {
    var more := steps + [step];
    assert more[..|more| - 1] == steps && more[|steps|] == step;
    if Touched(steps, p) {
      var k :| 0 <= k < |steps| && steps[k].Report? && steps[k].p == p;
      assert more[k] == steps[k];
    }
  }

  lemma StepMeans(h: Halves, steps: seq<Step>, s: State, step: Step)
    requires Means(h, steps, s) && Enabled(s, step)
    ensures Means(h, steps + [step], Apply(s, step))
  {
    hide Told, Touched, LastOf, LastStored, Errors, HalfSize;
    var t := Apply(s, step);
    AddOne(steps, step, step.p);
    forall p: nat | p < 3 ensures PartyMeans(h, steps + [step], p, t.parties[p]) {
      assert PartyMeans(h, steps, p, s.parties[p]);
      AddOne(steps, step, p);
    }
  }

  lemma {:induction false} StepsMean(h: Halves, size: nat, uptodate: bool, steps: seq<Step>)
    requires Possible(Fresh(h, size, uptodate), steps)
    ensures Means(h, steps, After(Fresh(h, size, uptodate), steps))
    decreases |steps|
  {
    var s := Fresh(h, size, uptodate);
    if steps != [] {
      var n := |steps| - 1;
      assert steps == steps[..n] + [steps[n]];
      OneMore(s, steps[..n], steps[n]);
      StepsMean(h, size, uptodate, steps[..n]);
      StepMeans(h, steps[..n], After(s, steps[..n]), steps[n]);
    }
  }

  predicate AllDone(s: State) { forall p :: 0 <= p < |s.parties| ==> s.parties[p].at.Done? }

  /** After every interleaving of the three: the master has ended, and then once and with its full size,
      exactly if all three are done; not before bio_endio was told at least all bytes of both halves; and with
      the error that was stored last, which is nonzero exactly if one was reported. */
  lemma EndsOnce(h: Halves, size: nat, uptodate: bool, steps: seq<Step>)
    requires Possible(Fresh(h, size, uptodate), steps)
    ensures var s := After(Fresh(h, size, uptodate), steps);
            && |s.parties| == 3 && |s.ends| == (if AllDone(s) then 1 else 0)
            && (s.ends != [] ==>
                  && s.ends[0].bytes == size && Told(steps, 0) >= h.size1 && Told(steps, 1) >= h.size2
                  && s.ends[0].error == LastStored(steps)
                  && (s.ends[0].error != 0 <==> Nonzero(Errors(steps)))
                  && (s.ends[0].error == 0 || s.ends[0].error in Errors(steps))
                  && s.uptodate == (uptodate && s.ends[0].error == 0))
  {
    var s := Fresh(h, size, uptodate);
    assert Inv(s, size, uptodate);
    Always(s, steps, size, uptodate);
    Ended1(After(s, steps), size, uptodate);
    StepsMean(h, size, uptodate, steps);
    var t := After(s, steps);
    assert PartyMeans(h, steps, 0, t.parties[0]) && PartyMeans(h, steps, 1, t.parties[1]);
  }

  /** A half lets go of the pair only after bio_endio was told all its bytes, and as long as it waits for more
      there is more to come, unless it was not reported on yet. */
  lemma WaitsForItsBytes(h: Halves, size: nat, uptodate: bool, steps: seq<Step>, p: nat)
    requires Possible(Fresh(h, size, uptodate), steps) && p < 2
    ensures var s := After(Fresh(h, size, uptodate), steps);
            && |s.parties| == 3
            && (s.parties[p].at.Dropping? || s.parties[p].at.Ending? || s.parties[p].at.Done? ==>
                  Told(steps, p) >= if p == 0 then h.size1 else h.size2)
            && (s.parties[p].at.Waiting? ==>
                  !Touched(steps, p) || Told(steps, p) < if p == 0 then h.size1 else h.size2)
  {
    StepsMean(h, size, uptodate, steps);
    var t := After(Fresh(h, size, uptodate), steps);
    assert PartyMeans(h, steps, p, t.parties[p]);
  }

  lemma Ended1(s: State, size: nat, uptodate: bool)
    requires Inv(s, size, uptodate)
    ensures |s.ends| == if AllDone(s) then 1 else 0
    ensures s.ends != [] ==>
              && s.ends[0] == Ended(size, s.error) && s.parties[0].left == 0 && s.parties[1].left == 0
              && (s.error != 0 <==> Nonzero(s.reported)) && s.uptodate == (uptodate && s.error == 0)
  {
    if AllDone(s) { assert Holders(s.parties) == 0; }
    assert PartyOk(s.parties[0]) && PartyOk(s.parties[1]);
  }

  /** A run that cannot go on has ended the master: nobody waits for anybody but for I/O. */
  lemma CompleteRunEnds(h: Halves, size: nat, uptodate: bool, steps: seq<Step>)
    requires Possible(Fresh(h, size, uptodate), steps)
    requires forall step: Step :: !Enabled(After(Fresh(h, size, uptodate), steps), step)
    ensures |After(Fresh(h, size, uptodate), steps).ends| == 1
  {
    EndsOnce(h, size, uptodate, steps);
    var s := After(Fresh(h, size, uptodate), steps);
    forall p | 0 <= p < |s.parties| ensures s.parties[p].at.Done? {
      assert !Enabled(s, Report(p, 0, 0)) && !Enabled(s, Store(p)) && !Enabled(s, Look(p))
          && !Enabled(s, Drop(p)) && !Enabled(s, End(p));
    }
  }
}
