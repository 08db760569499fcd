/**
 fs/block_dev.c: opens and puts of one disk and its partitions, interleaved.  bd_sem of a partition is
 held over a whole open or put of it, so each partition is at one stage of one of them; what happens
 under bd_sem of the whole device is one step.  Between these steps the disk belongs to everybody.
 */
module BdRuns {

  /** Where the holder of a partition's bd_sem is: nobody holds it; first open, before the whole device is
      open, with it open, or with bd_part_count raised; a first open being undone; an open of a partition
      that is open already; an open about to fail; a put before and after bd_part_count is lowered; a put
      about to end. */
  datatype Stage = Free | First | WholeOpen | Counted | Undoing | Again | Failing | Closing | Lowered | Ending

  /** bd_openers of a partition, and whether its bd_contains points to the whole device. */
  datatype Part = Part(openers: nat, contained: bool, at: Stage)

  /** `direct` counts the opens of the whole device itself that have not been put. */
  datatype State = State(openers: int, partCount: int, contained: bool, direct: nat, parts: seq<Part>)

  /** The steps of do_open and blkdev_put on partition p; `ok` is what driver, disk or memory answer. */
  datatype PartOp =
    | TakeOpen
    | OpenWhole(ok: bool)
    | RaiseFirst(ok: bool)
    | UndoWhole
    | RaiseAgain
    | OpenDone
    | OpenFails
    | TakePut
    | Lower
    | PutWhole
    | PutDone

  datatype Step = OnPart(p: nat, op: PartOp) | Open(ok: bool) | Put

  predicate PartEnabled(x: Part, op: PartOp) {
    match op
    case TakeOpen => x.at.Free?
    case OpenWhole(_) => x.at.First?
    case RaiseFirst(_) => x.at.WholeOpen?
    case UndoWhole => x.at.Undoing?
    case RaiseAgain => x.at.Again?
    case OpenDone => x.at.Counted?
    case OpenFails => x.at.Failing?
    case TakePut => x.at.Free? && x.openers > 0
    case Lower => x.at.Closing?
    case PutWhole => x.at.Lowered? && x.openers == 0
    case PutDone => x.at.Ending? || (x.at.Lowered? && x.openers > 0)
  }

  predicate Enabled(s: State, step: Step) {
    match step
    case OnPart(p, op) => p < |s.parts| && PartEnabled(s.parts[p], op)
    case Open(_) => true
    case Put => s.direct > 0
  }

  /** What a step does to the partition. */
  function NextPart(x: Part, op: PartOp): Part
    requires PartEnabled(x, op)
  {
    match op
    case TakeOpen => x.(at := if x.openers == 0 then First else Again)
    case OpenWhole(ok) => if ok then x.(contained := true, at := WholeOpen) else x.(at := Failing)
    case RaiseFirst(ok) => x.(at := if ok then Counted else Undoing)
    case UndoWhole => x.(at := Failing)
    case RaiseAgain => x.(at := Counted)
    case OpenDone => x.(openers := x.openers + 1, at := Free)
    case OpenFails => x.(contained := false, at := Free)
    case TakePut => x.(openers := x.openers - 1, at := Closing)
    case Lower => x.(at := Lowered)
    case PutWhole => x.(at := Ending)
    case PutDone => x.(contained := x.openers > 0, at := Free)
  }

  /** do_open and blkdev_put of the whole device, under its bd_sem. */
  function Opened(s: State): State { s.(openers := s.openers + 1, contained := true) }

  function Closed(s: State): State {
    s.(openers := s.openers - 1, contained := if s.openers == 1 then false else s.contained)
  }

  /** What a step of a partition does to the whole device.  bd_part_count goes up before the partition is
      looked at, and down again if it is not there. */
  function NextWhole(s: State, op: PartOp): State {
    match op
    case OpenWhole(ok) => if ok then Opened(s) else s
    case RaiseFirst(ok) => if ok then s.(partCount := s.partCount + 1) else s.(partCount := s.partCount + 1 - 1)
    case UndoWhole => Closed(s)
    case RaiseAgain => s.(partCount := s.partCount + 1)
    case Lower => s.(partCount := s.partCount - 1)
    case PutWhole => Closed(s)
    case _ => s
  }

  function Apply(s: State, step: Step): State
    requires Enabled(s, step)
  {
    match step
    case OnPart(p, op) => NextWhole(s, op).(parts := s.parts[p := NextPart(s.parts[p], op)])
    case Open(ok) => if ok then Opened(s).(direct := s.direct + 1) else s
    case Put => Closed(s).(direct := s.direct - 1)
  }

  function New(partitions: nat): State { State(0, 0, false, 0, seq(partitions, _ => Part(0, false, Free))) }

  /* ---- What every step keeps ---- */

  /** The whole device is open on behalf of the partition. */
  predicate HoldsWhole(x: Part) {
    match x.at
    case Free => x.openers > 0
    case First => false
    case Failing => false
    case Ending => false
    case _ => true
  }

  function One(x: Part): nat { if HoldsWhole(x) then 1 else 0 }

  /** What the partition contributes to bd_part_count. */
  function Counts(x: Part): nat { x.openers + if x.at.Counted? || x.at.Closing? then 1 else 0 }

  function Sum(parts: seq<Part>, f: Part -> nat): nat {
    if parts == [] then 0 else Sum(parts[..|parts| - 1], f) + f(parts[|parts| - 1])
  }

  lemma {:induction false} SumSet(parts: seq<Part>, f: Part -> nat, p: nat, x: Part)
    requires p < |parts|
    ensures Sum(parts[p := x], f) == Sum(parts, f) - f(parts[p]) + f(x) && Sum(parts, f) >= f(parts[p])
  {
    var n := |parts| - 1;
    if p == n {
      assert parts[p := x][..n] == parts[..n];
    } else {
      assert parts[p := x][..n] == parts[..n][p := x];
      SumSet(parts[..n], f, p, x);
    }
  }

  lemma {:induction false} SumZero(parts: seq<Part>, f: Part -> nat)
    requires forall p :: 0 <= p < |parts| ==> f(parts[p]) == 0
    ensures Sum(parts, f) == 0
  {
    if parts != [] { SumZero(parts[..|parts| - 1], f); }
  }

  predicate PartOk(x: Part) {
    match x.at
    case Free => x.contained <==> x.openers > 0
    case First => x.openers == 0 && !x.contained
    case Failing => x.openers == 0
    case Ending => x.openers == 0 && x.contained
    case Again => x.openers > 0 && x.contained
    case Counted => x.contained
    case Closing => x.contained
    case Lowered => x.contained
    case _ => x.openers == 0 && x.contained
  }

  ghost predicate Inv(s: State) {
    && s.openers == s.direct + Sum(s.parts, One) && s.partCount == Sum(s.parts, Counts)
    && (s.contained <==> s.openers > 0)
    && forall p: nat :: p < |s.parts| ==> PartOk(s.parts[p])
  }

  lemma NewInv(partitions: nat)
    ensures Inv(New(partitions))
  {
    SumZero(New(partitions).parts, One);
    SumZero(New(partitions).parts, Counts);
  }

  lemma PartStepKeeps(s: State, p: nat, op: PartOp)
    requires Inv(s) && p < |s.parts| && PartEnabled(s.parts[p], op)
    ensures Inv(Apply(s, OnPart(p, op)))
  {
    hide Sum;
    var x := NextPart(s.parts[p], op);
    SumSet(s.parts, One, p, x);
    SumSet(s.parts, Counts, p, x);
    assert PartOk(s.parts[p]);
  }

  lemma StepKeeps(s: State, step: Step)
    requires Inv(s) && Enabled(s, step)
    ensures Inv(Apply(s, step))
  {
    if step.OnPart? { PartStepKeeps(s, step.p, step.op); }
  }

  /* ---- Runs ---- */

  predicate Possible(s: State, steps: seq<Step>)
    decreases |steps|
  {
    steps == [] || (Enabled(s, steps[0]) && Possible(Apply(s, steps[0]), steps[1..]))
  }

  function After(s: State, steps: seq<Step>): State
    requires Possible(s, steps)
    decreases |steps|
  {
    if steps == [] then s else After(Apply(s, steps[0]), steps[1..])
  }

  lemma {:induction false} Always(s: State, steps: seq<Step>)
    requires Inv(s) && Possible(s, steps)
    ensures Inv(After(s, steps))
    decreases |steps|
  {
    hide Inv;
    if steps != [] {
      StepKeeps(s, steps[0]);
      Always(Apply(s, steps[0]), steps[1..]);
    }
  }

  /** After every interleaving: bd_openers of the whole device counts its direct opens and the partitions
      that hold it, which each open partition does; it is open as long as one of them does; and
      bd_part_count counts the opens of partitions, those under way included. */
  lemma CountersMean(partitions: nat, steps: seq<Step>, p: nat)
    requires Possible(New(partitions), steps) && p < |After(New(partitions), steps).parts|
    ensures var s := After(New(partitions), steps);
            && s.openers == s.direct + Sum(s.parts, One) >= 0 && s.partCount == Sum(s.parts, Counts) >= 0
            && (s.contained <==> s.openers > 0)
            && (HoldsWhole(s.parts[p]) ==> s.openers > 0) && s.partCount >= s.parts[p].openers
            && (s.parts[p].openers > 0 ==> s.parts[p].contained && HoldsWhole(s.parts[p]))
  {
    hide Sum, Possible, After, New;
    NewInv(partitions);
    Always(New(partitions), steps);
    var s := After(New(partitions), steps);
    SumSet(s.parts, One, p, s.parts[p]);
    SumSet(s.parts, Counts, p, s.parts[p]);
    assert PartOk(s.parts[p]);
  }

  /** Successful opens of the whole device less its puts. */
  function DirectOpens(steps: seq<Step>): int {
    if steps == [] then 0
    else (if steps[0] == Open(true) then 1 else if steps[0].Put? then -1 else 0) + DirectOpens(steps[1..])
  }

  /** Completed opens of partition p less the puts begun. */
  function PartOpens(steps: seq<Step>, p: nat): int {
    if steps == [] then 0
    else
      (if steps[0] == OnPart(p, OpenDone) then 1 else if steps[0] == OnPart(p, TakePut) then -1 else 0)
      + PartOpens(steps[1..], p)
  }

  lemma {:induction false} CountersFollow(s: State, steps: seq<Step>, p: nat)
    requires Possible(s, steps) && p < |s.parts|
    ensures var t := After(s, steps);
            && |t.parts| == |s.parts| && t.direct == s.direct + DirectOpens(steps)
            && t.parts[p].openers == s.parts[p].openers + PartOpens(steps, p)
    decreases |steps|
  {
    if steps != [] { CountersFollow(Apply(s, steps[0]), steps[1..], p); }
  }

  /** After every interleaving, told from the steps: the direct opens of the whole device are its successful opens
      less its puts, and bd_openers of a partition is its completed opens less its puts. */
  lemma OpensAreCounted(partitions: nat, steps: seq<Step>, p: nat)
    requires Possible(New(partitions), steps) && p < partitions
    ensures var s := After(New(partitions), steps);
            && |s.parts| == partitions && s.direct == DirectOpens(steps) && s.parts[p].openers == PartOpens(steps, p)
  {
    CountersFollow(New(partitions), steps, p);
  }

  ghost predicate Quiet(s: State) { forall p: nat :: p < |s.parts| ==> s.parts[p].at.Free? }

  /** With no open or put under way and everything closed, all counters are zero, whatever failed before. */
  lemma AllClosed(partitions: nat, steps: seq<Step>)
    requires Possible(New(partitions), steps) && Quiet(After(New(partitions), steps))
    requires var s := After(New(partitions), steps);
             s.direct == 0 && forall p: nat :: p < |s.parts| ==> s.parts[p].openers == 0
    ensures var s := After(New(partitions), steps);
            && s.openers == 0 && s.partCount == 0 && !s.contained
            && forall p: nat :: p < |s.parts| ==> !s.parts[p].contained
  {
    hide Sum, Possible, After, New;
    NewInv(partitions);
    Always(New(partitions), steps);
    var s := After(New(partitions), steps);
    SumZero(s.parts, One);
    SumZero(s.parts, Counts);
    forall p: nat | p < |s.parts| ensures !s.parts[p].contained { assert PartOk(s.parts[p]); }
  }

  /** The whole device is never put more often than it was opened. */
  lemma PutsAreCovered(s: State, step: Step)
    requires Inv(s) && Enabled(s, step) && Apply(s, step).openers < s.openers
    ensures s.openers > 0 && (step.Put? || HoldsWhole(s.parts[step.p]))
  {
    hide Sum;
    if step.OnPart? { SumSet(s.parts, One, step.p, s.parts[step.p]); }
  }
}
