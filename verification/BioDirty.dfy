/**
 fs/bio.c: releasing the pages of direct reads.  Pages that are still dirty are released at once;
 a bio with clean pages is put on a list, and a worker dirties and releases the rest.  Interrupts,
 workers and writeback interleave freely; each lock section and each look at a page is a step.
 */
module BioDirty {
  import opened Machine

  /** One entry of a bio's vector.  `puts` counts how often its page was released, `wasClean` says that
      bio_check_pages_dirty found it clean, `redirtied` that it was dirtied after that. */
  datatype Slot = Slot(page: nat, nulled: bool, puts: nat, wasClean: bool, redirtied: bool)

  /** Where a bio is: still in I/O, being checked (next entry, clean pages so far), on the list that
      worker run w takes, being dirtied or released by run w (next entry), or put. */
  datatype Place =
    | InFlight
    | Checking(i: nat, clean: nat)
    | Batch(w: nat)
    | Dirtying(w: nat, i: nat)
    | Releasing(w: nat, i: nat)
    | Put

  datatype Bio = Bio(slots: seq<Slot>, at: Place, puts: nat)

  /** One run of bio_dirty_fn: the bios still ahead, and the one in hand. */
  datatype Run = Run(todo: seq<nat>, busy: bool)

  datatype State = State(bios: seq<Bio>, list: seq<nat>, runs: seq<Run>,
                         scheduled: bool, schedulers: nat, dirty: seq<bool>)

  datatype Step =
    | CheckStart(b: nat)
    | CheckPage(b: nat)
    | CheckEnd(b: nat)
    | Schedule
    | WorkStart
    | WorkNext(w: nat)
    | DirtyPage(b: nat)
    | DirtyEnd(b: nat)
    | ReleasePage(b: nat)
    | PutBio(b: nat)
    | Writeback(page: nat)

  /** `compound` says which pages are compound; that does not change. */
  predicate Enabled(s: State, step: Step, compound: seq<bool>) {
    |s.dirty| == |compound| &&
    match step
    case CheckStart(b) => b < |s.bios| && s.bios[b].at.InFlight?
    case CheckPage(b) =>
      && b < |s.bios| && s.bios[b].at.Checking? && s.bios[b].at.i < |s.bios[b].slots|
      && s.bios[b].slots[s.bios[b].at.i].page < |compound|
    case CheckEnd(b) => b < |s.bios| && s.bios[b].at.Checking? && s.bios[b].at.i == |s.bios[b].slots|
    case Schedule => s.schedulers > 0
    case WorkStart => s.scheduled
    case WorkNext(w) => w < |s.runs| && !s.runs[w].busy && s.runs[w].todo != [] && s.runs[w].todo[0] < |s.bios|
    case DirtyPage(b) =>
      && b < |s.bios| && s.bios[b].at.Dirtying? && s.bios[b].at.i < |s.bios[b].slots|
      && s.bios[b].slots[s.bios[b].at.i].page < |compound|
    case DirtyEnd(b) => b < |s.bios| && s.bios[b].at.Dirtying? && s.bios[b].at.i == |s.bios[b].slots|
    case ReleasePage(b) => b < |s.bios| && s.bios[b].at.Releasing? && s.bios[b].at.i < |s.bios[b].slots|
    case PutBio(b) =>
      b < |s.bios| && s.bios[b].at.Releasing? && s.bios[b].at.i == |s.bios[b].slots| && s.bios[b].at.w < |s.runs|
    case Writeback(page) => page < |s.dirty|
  }

  function SetBio(s: State, b: nat, x: Bio): State
    requires b < |s.bios|
  {
    s.(bios := s.bios[b := x])
  }

  /** The loop body of bio_check_pages_dirty. */
  function Checked(x: Bio, dirtyOrCompound: bool): Bio
    requires x.at.Checking? && x.at.i < |x.slots|
  {
    var i, slot := x.at.i, x.slots[x.at.i];
    if dirtyOrCompound then
      x.(slots := x.slots[i := slot.(nulled := true, puts := slot.puts + 1)], at := Checking(i + 1, x.at.clean))
    else
      x.(slots := x.slots[i := slot.(wasClean := true)], at := Checking(i + 1, x.at.clean + 1))
  }

  /** The loop body of bio_set_pages_dirty. */
  function Dirtied(x: Bio, compound: bool): Bio
    requires x.at.Dirtying? && x.at.i < |x.slots|
  {
    var i, slot := x.at.i, x.slots[x.at.i];
    x.(slots := if !slot.nulled && !compound then x.slots[i := slot.(redirtied := true)] else x.slots,
       at := Dirtying(x.at.w, i + 1))
  }

  /** The loop body of bio_release_pages. */
  function Released(x: Bio): Bio
    requires x.at.Releasing? && x.at.i < |x.slots|
  {
    var i, slot := x.at.i, x.slots[x.at.i];
    x.(slots := if !slot.nulled then x.slots[i := slot.(puts := slot.puts + 1)] else x.slots,
       at := Releasing(x.at.w, i + 1))
  }

  function Apply(s: State, step: Step, compound: seq<bool>): State
    requires Enabled(s, step, compound)
  {
    match step
    case CheckStart(b) => SetBio(s, b, s.bios[b].(at := Checking(0, 0)))
    case CheckPage(b) =>
      var page := s.bios[b].slots[s.bios[b].at.i].page;
      SetBio(s, b, Checked(s.bios[b], s.dirty[page] || compound[page]))
    case CheckEnd(b) =>
      if s.bios[b].at.clean > 0 then
        SetBio(s, b, s.bios[b].(at := Batch(|s.runs|))).(list := [b] + s.list, schedulers := s.schedulers + 1)
      else SetBio(s, b, s.bios[b].(at := Put, puts := s.bios[b].puts + 1))
    case Schedule => s.(schedulers := s.schedulers - 1, scheduled := true)
    case WorkStart => s.(scheduled := false, runs := s.runs + [Run(s.list, false)], list := [])
    case WorkNext(w) =>
      var b := s.runs[w].todo[0];
      SetBio(s, b, s.bios[b].(at := Dirtying(w, 0))).(runs := s.runs[w := Run(s.runs[w].todo[1..], true)])
    case DirtyPage(b) =>
      var slot := s.bios[b].slots[s.bios[b].at.i];
      SetBio(s, b, Dirtied(s.bios[b], compound[slot.page])).(
        dirty := if !slot.nulled && !compound[slot.page] then s.dirty[slot.page := true] else s.dirty)
    case DirtyEnd(b) => SetBio(s, b, s.bios[b].(at := Releasing(s.bios[b].at.w, 0)))
    case ReleasePage(b) => SetBio(s, b, Released(s.bios[b]))
    case PutBio(b) =>
      var w := s.bios[b].at.w;
      SetBio(s, b, s.bios[b].(at := Put, puts := s.bios[b].puts + 1)).(runs := s.runs[w := s.runs[w].(busy := false)])
    case Writeback(page) => s.(dirty := s.dirty[page := false])
  }

  /* ---- One bio ---- */

  predicate Untouched(s: Slot) { !s.nulled && s.puts == 0 && !s.wasClean && !s.redirtied }

  /** Released at once, or found clean and kept. */
  predicate Sorted(s: Slot, compound: bool) {
    if s.nulled then s.puts == 1 && !s.wasClean else s.puts == 0 && s.wasClean && !compound
  }

  /** The page was dirtied after the check exactly if the check found it clean. */
  predicate Redirtied(s: Slot) { s.redirtied == s.wasClean }

  predicate SlotOk(at: Place, j: nat, s: Slot, compound: bool) {
    match at
    case InFlight => Untouched(s)
    case Checking(i, clean) =>
      if j < i then Sorted(s, compound) && (clean == 0 ==> s.nulled) && !s.redirtied else Untouched(s)
    case Batch(_) => Sorted(s, compound) && !s.redirtied
    case Dirtying(_, i) => Sorted(s, compound) && if j < i then Redirtied(s) else !s.redirtied
    case Releasing(_, i) => Redirtied(s) && (if j < i then s.puts == 1 else Sorted(s, compound))
    case Put => s.puts == 1 && Redirtied(s)
  }

  ghost predicate BioOk(x: Bio, compound: seq<bool>) {
    && x.puts == (if x.at.Put? then 1 else 0)
    && (x.at.Checking? || x.at.Dirtying? || x.at.Releasing? ==> x.at.i <= |x.slots|)
    && forall j: nat :: j < |x.slots| ==>
         x.slots[j].page < |compound| && SlotOk(x.at, j, x.slots[j], compound[x.slots[j].page])
  }

  lemma CheckedOk(x: Bio, compound: seq<bool>, dirty: bool)
    requires BioOk(x, compound) && x.at.Checking? && x.at.i < |x.slots|
    ensures BioOk(Checked(x, dirty || compound[x.slots[x.at.i].page]), compound)
  {}

  lemma DirtiedOk(x: Bio, compound: seq<bool>)
    requires BioOk(x, compound) && x.at.Dirtying? && x.at.i < |x.slots|
    ensures BioOk(Dirtied(x, compound[x.slots[x.at.i].page]), compound)
  {}

  lemma ReleasedOk(x: Bio, compound: seq<bool>)
    requires BioOk(x, compound) && x.at.Releasing? && x.at.i < |x.slots|
    ensures BioOk(Released(x), compound)
  {}

  /* ---- All bios ---- */

  /** `q` lists exactly the bios of batch w, each once. */
  ghost predicate ListOk(q: seq<nat>, bios: seq<Bio>, w: nat) {
    && Distinct(q)
    && (forall b: nat :: b in q ==> b < |bios| && bios[b].at == Batch(w))
    && (forall b: nat :: b < |bios| && bios[b].at == Batch(w) ==> b in q)
  }

  predicate InHand(at: Place, w: nat) { (at.Dirtying? || at.Releasing?) && at.w == w }

  /** Run w has its batch ahead; it is busy exactly while it has a bio in hand, and has at most one. */
  ghost predicate RunOk(r: Run, bios: seq<Bio>, w: nat) {
    && ListOk(r.todo, bios, w)
    && (forall b: nat :: b < |bios| && InHand(bios[b].at, w) ==> r.busy)
    && (forall b: nat, c: nat :: b < |bios| && c < |bios| && InHand(bios[b].at, w) && InHand(bios[c].at, w) ==> b == c)
  }

  ghost predicate Inv(s: State, compound: seq<bool>) {
    && |s.dirty| == |compound|
    && (forall b: nat :: b < |s.bios| ==> BioOk(s.bios[b], compound) && Known(s.bios[b].at, |s.runs|))
    && ListOk(s.list, s.bios, |s.runs|)
    && (forall w: nat :: w < |s.runs| ==> RunOk(s.runs[w], s.bios, w))
    && (s.list != [] ==> s.scheduled || s.schedulers > 0)
  }

  predicate Known(at: Place, n: nat) {
    match at
    case Batch(w) => w <= n
    case Dirtying(w, _) => w < n
    case Releasing(w, _) => w < n
    case _ => true
  }

  lemma ListSame(q: seq<nat>, bios: seq<Bio>, w: nat, b: nat, x: Bio)
    requires ListOk(q, bios, w) && b < |bios| && (x.at == Batch(w) <==> bios[b].at == Batch(w))
    ensures ListOk(q, bios[b := x], w)
  {}

  lemma ListPush(q: seq<nat>, bios: seq<Bio>, w: nat, b: nat, x: Bio)
    requires ListOk(q, bios, w) && b < |bios| && bios[b].at != Batch(w) && x.at == Batch(w)
    ensures ListOk([b] + q, bios[b := x], w)
  {
    assert ([b] + q)[0] == b;
    forall a: nat | a < |q| ensures q[a] != b { assert q[a] in q; }
    forall c: nat | c < |bios| && bios[b := x][c].at == Batch(w) ensures c in [b] + q {}
  }

  lemma ListPop(q: seq<nat>, bios: seq<Bio>, w: nat, x: Bio)
    requires ListOk(q, bios, w) && q != [] && q[0] < |bios| && x.at != Batch(w)
    ensures ListOk(q[1..], bios[q[0] := x], w)
  {
    forall c: nat | c < |bios| && bios[q[0] := x][c].at == Batch(w) ensures c in q[1..] {
      assert c in q;
      var n :| 0 <= n < |q| && q[n] == c;
      assert q[1..][n - 1] == c;
    }
    forall c: nat | c in q[1..] ensures c in q && c != q[0] {
      var n :| 0 <= n < |q| - 1 && q[1..][n] == c;
      assert q[n + 1] == c;
    }
  }

  /** Batch w and the hands of run w do not notice a bio that moves elsewhere. */
  lemma RunSame(r: Run, bios: seq<Bio>, w: nat, b: nat, x: Bio)
    requires RunOk(r, bios, w) && b < |bios|
    requires (x.at == Batch(w) <==> bios[b].at == Batch(w)) && (InHand(x.at, w) <==> InHand(bios[b].at, w))
    ensures RunOk(r, bios[b := x], w)
  {
    ListSame(r.todo, bios, w, b, x);
    var more := bios[b := x];
    forall c: nat | c < |more| ensures InHand(more[c].at, w) <==> InHand(bios[c].at, w) {}
  }

  /** A bio changes but stays out of, or in, the same list and the same hands. */
  lemma StayKeeps(s: State, compound: seq<bool>, b: nat, x: Bio)
    requires Inv(s, compound) && b < |s.bios| && BioOk(x, compound)
    requires var at := s.bios[b].at;
             if InHand(at, 0) || at.Dirtying? || at.Releasing? then InHand(x.at, at.w)
             else !at.Batch? && !x.at.Batch? && !x.at.Dirtying? && !x.at.Releasing?
    ensures Inv(SetBio(s, b, x), compound)
  {
    ListSame(s.list, s.bios, |s.runs|, b, x);
    forall w: nat | w < |s.runs| ensures RunOk(s.runs[w], s.bios[b := x], w) { RunSame(s.runs[w], s.bios, w, b, x); }
  }

  lemma PushKeeps(s: State, compound: seq<bool>, b: nat)
    requires Inv(s, compound) && Enabled(s, CheckEnd(b), compound) && s.bios[b].at.clean > 0
    ensures Inv(Apply(s, CheckEnd(b), compound), compound)
  {
    var x := s.bios[b].(at := Batch(|s.runs|));
    ListPush(s.list, s.bios, |s.runs|, b, x);
    forall w: nat | w < |s.runs| ensures RunOk(s.runs[w], s.bios[b := x], w) { RunSame(s.runs[w], s.bios, w, b, x); }
  }

  lemma WorkStartKeeps(s: State, compound: seq<bool>)
    requires Inv(s, compound) && Enabled(s, WorkStart, compound)
    ensures Inv(Apply(s, WorkStart, compound), compound)
  {
    var t := Apply(s, WorkStart, compound);
    forall b: nat | b < |s.bios| ensures BioOk(t.bios[b], compound) && Known(t.bios[b].at, |t.runs|) {
      assert Known(s.bios[b].at, |s.runs|);
    }
    forall w: nat | w < |t.runs| ensures RunOk(t.runs[w], t.bios, w) {
      if w < |s.runs| { assert RunOk(s.runs[w], s.bios, w); } else { NobodyInHand(s, compound); }
    }
    assert ListOk([], t.bios, |t.runs|) by {
      forall b: nat | b < |t.bios| ensures t.bios[b].at != Batch(|t.runs|) { assert Known(s.bios[b].at, |s.runs|); }
    }
  }

  lemma NobodyInHand(s: State, compound: seq<bool>)
    requires Inv(s, compound)
    ensures forall b: nat :: b < |s.bios| ==> !InHand(s.bios[b].at, |s.runs|)
  {
    forall b: nat | b < |s.bios| ensures !InHand(s.bios[b].at, |s.runs|) { assert Known(s.bios[b].at, |s.runs|); }
  }

  lemma WorkNextKeeps(s: State, compound: seq<bool>, w: nat)
    requires Inv(s, compound) && Enabled(s, WorkNext(w), compound)
    ensures Inv(Apply(s, WorkNext(w), compound), compound)
  {
    var r := s.runs[w];
    var b := r.todo[0];
    assert RunOk(r, s.bios, w) && b in r.todo;
    assert BioOk(s.bios[b], compound);
    var x := s.bios[b].(at := Dirtying(w, 0));
    var t := Apply(s, WorkNext(w), compound);
    ListPop(r.todo, s.bios, w, x);
    ListSame(s.list, s.bios, |s.runs|, b, x);
    forall v: nat | v < |t.runs| ensures RunOk(t.runs[v], t.bios, v) {
      if v != w { RunSame(s.runs[v], s.bios, v, b, x); } else { OneInHand(r, s.bios, w, b, x); }
    }
  }

  lemma OneInHand(r: Run, bios: seq<Bio>, w: nat, b: nat, x: Bio)
    requires RunOk(r, bios, w) && !r.busy && b < |bios| && r.todo != [] && r.todo[0] == b && x.at == Dirtying(w, 0)
    requires ListOk(r.todo[1..], bios[b := x], w)
    ensures RunOk(Run(r.todo[1..], true), bios[b := x], w)
  {
    var more := bios[b := x];
    forall c: nat | c < |more| && InHand(more[c].at, w) ensures c == b {}
  }

  lemma PutKeeps(s: State, compound: seq<bool>, b: nat)
    requires Inv(s, compound) && Enabled(s, PutBio(b), compound)
    ensures Inv(Apply(s, PutBio(b), compound), compound)
  {
    var w := s.bios[b].at.w;
    var x := s.bios[b].(at := Put, puts := s.bios[b].puts + 1);
    var t := Apply(s, PutBio(b), compound);
    assert BioOk(s.bios[b], compound);
    ListSame(s.list, s.bios, |s.runs|, b, x);
    forall v: nat | v < |t.runs| ensures RunOk(t.runs[v], t.bios, v) {
      if v != w { RunSame(s.runs[v], s.bios, v, b, x); } else { HandEmptied(s.runs[w], s.bios, w, b, x); }
    }
  }

  lemma HandEmptied(r: Run, bios: seq<Bio>, w: nat, b: nat, x: Bio)
    requires RunOk(r, bios, w) && b < |bios| && InHand(bios[b].at, w) && x.at.Put?
    ensures RunOk(r.(busy := false), bios[b := x], w)
  {
    ListSame(r.todo, bios, w, b, x);
    var more := bios[b := x];
    forall c: nat | c < |more| ensures !InHand(more[c].at, w) {}
  }

  lemma DirtyFlagsKeep(s: State, compound: seq<bool>, dirty: seq<bool>)
    requires Inv(s, compound) && |dirty| == |s.dirty|
    ensures Inv(s.(dirty := dirty), compound)
  {}

  /** Every step of every party keeps the invariant. */
  lemma StepKeeps(s: State, step: Step, compound: seq<bool>)
    requires Inv(s, compound) && Enabled(s, step, compound)
    ensures Inv(Apply(s, step, compound), compound)
  {
    match step
    case CheckStart(b) => StayKeeps(s, compound, b, s.bios[b].(at := Checking(0, 0)));
    case CheckPage(b) =>
      var page := s.bios[b].slots[s.bios[b].at.i].page;
      CheckedOk(s.bios[b], compound, s.dirty[page]);
      StayKeeps(s, compound, b, Checked(s.bios[b], s.dirty[page] || compound[page]));
    case CheckEnd(b) =>
      if s.bios[b].at.clean > 0 { PushKeeps(s, compound, b); }
      else { StayKeeps(s, compound, b, s.bios[b].(at := Put, puts := s.bios[b].puts + 1)); }
    case Schedule =>
    case WorkStart => WorkStartKeeps(s, compound);
    case WorkNext(w) => WorkNextKeeps(s, compound, w);
    case DirtyPage(b) =>
      DirtiedOk(s.bios[b], compound);
      var x := Dirtied(s.bios[b], compound[s.bios[b].slots[s.bios[b].at.i].page]);
      StayKeeps(s, compound, b, x);
      DirtyFlagsKeep(SetBio(s, b, x), compound, Apply(s, step, compound).dirty);
    case DirtyEnd(b) => StayKeeps(s, compound, b, s.bios[b].(at := Releasing(s.bios[b].at.w, 0)));
    case ReleasePage(b) =>
      ReleasedOk(s.bios[b], compound);
      StayKeeps(s, compound, b, Released(s.bios[b]));
    case PutBio(b) => PutKeeps(s, compound, b);
    case Writeback(page) => DirtyFlagsKeep(s, compound, s.dirty[page := false]);
  }

  /* ---- Whole runs ---- */

  predicate Possible(s: State, steps: seq<Step>, compound: seq<bool>)
    decreases |steps|
  {
    steps == [] || (Enabled(s, steps[0], compound) && Possible(Apply(s, steps[0], compound), steps[1..], compound))
  }

  function After(s: State, steps: seq<Step>, compound: seq<bool>): State
    requires Possible(s, steps, compound)
    decreases |steps|
  {
    if steps == [] then s else After(Apply(s, steps[0], compound), steps[1..], compound)
  }

  /** Any number of bios in flight, each with its pages pinned, and nothing queued. */
  ghost predicate Initial(s: State, compound: seq<bool>) {
    && |s.dirty| == |compound| && s.list == [] && s.runs == [] && !s.scheduled && s.schedulers == 0
    && forall b: nat :: b < |s.bios| ==> s.bios[b].at.InFlight? && BioOk(s.bios[b], compound)
  }

  lemma {:induction false} Always(s: State, steps: seq<Step>, compound: seq<bool>)
    requires Inv(s, compound) && Possible(s, steps, compound)
    ensures Inv(After(s, steps, compound), compound)
    decreases |steps|
  {
    hide Inv, Enabled, Apply;
    if steps != [] {
      StepKeeps(s, steps[0], compound);
      Always(Apply(s, steps[0], compound), steps[1..], compound);
    }
  }

  lemma ReachedInv(s: State, steps: seq<Step>, compound: seq<bool>)
    requires Initial(s, compound) && Possible(s, steps, compound)
    ensures Inv(After(s, steps, compound), compound)
  {
    Always(s, steps, compound);
  }

  /** In every reachable state no page reference was released twice and no bio put twice, and a page
      found clean was released only after having been dirtied again. */
  lemma AtMostOnce(s: State, steps: seq<Step>, compound: seq<bool>, b: nat, j: nat)
    requires Initial(s, compound) && Possible(s, steps, compound)
    requires b < |After(s, steps, compound).bios| && j < |After(s, steps, compound).bios[b].slots|
    ensures var x := After(s, steps, compound).bios[b];
            && x.puts <= 1 && x.slots[j].puts <= 1
            && (x.slots[j].puts == 1 && x.slots[j].wasClean ==> x.slots[j].redirtied)
  {
    ReachedInv(s, steps, compound);
    var t := After(s, steps, compound);
    assert BioOk(t.bios[b], compound);
    assert SlotOk(t.bios[b].at, j, t.bios[b].slots[j], compound[t.bios[b].slots[j].page]);
  }

  /* ---- The dirty flags of the pages ---- */

  predicate HasSlot(s: State, b: nat, j: nat) { b < |s.bios| && j < |s.bios[b].slots| }

  /** The check releases a page exactly if it is dirty or compound at that moment. */
  lemma CheckReleasesIff(s: State, compound: seq<bool>, b: nat)
    requires Enabled(s, CheckPage(b), compound)
    ensures var t, i := Apply(s, CheckPage(b), compound), s.bios[b].at.i;
            var page := s.bios[b].slots[i].page;
            && HasSlot(t, b, i)
            && t.bios[b].slots[i].puts == s.bios[b].slots[i].puts + if s.dirty[page] || compound[page] then 1 else 0
  {}

  /** What no step changes, or only one way. */
  lemma SlotStays(s: State, step: Step, compound: seq<bool>, b: nat, j: nat)
    requires Enabled(s, step, compound) && HasSlot(s, b, j)
    ensures var t := Apply(s, step, compound);
            && HasSlot(t, b, j) && |t.dirty| == |s.dirty| && t.bios[b].slots[j].page == s.bios[b].slots[j].page
            && (s.bios[b].slots[j].wasClean ==> t.bios[b].slots[j].wasClean)
  {}

  /** The step that counts a page as dirtied again leaves it dirty. */
  lemma TurnsDirty(s: State, step: Step, compound: seq<bool>, b: nat, j: nat)
    requires Enabled(s, step, compound) && HasSlot(s, b, j) && HasSlot(Apply(s, step, compound), b, j)
    requires !s.bios[b].slots[j].redirtied && Apply(s, step, compound).bios[b].slots[j].redirtied
    ensures var page := s.bios[b].slots[j].page;
            page < |Apply(s, step, compound).dirty| && Apply(s, step, compound).dirty[page]
  {}

  /** Over every run: a page is only ever dirtied through an entry that still holds its reference, was not released
      by the check, and is not compound. */
  lemma DirtiesOnlyHeld(s: State, steps: seq<Step>, compound: seq<bool>, step: Step, page: nat)
    requires Initial(s, compound) && Possible(s, steps, compound) && Enabled(After(s, steps, compound), step, compound)
    requires var u := After(s, steps, compound);
             page < |u.dirty| && !u.dirty[page] && page < |Apply(u, step, compound).dirty|
             && Apply(u, step, compound).dirty[page]
    ensures var u := After(s, steps, compound);
            && step.DirtyPage? && !compound[page]
            && var slot := u.bios[step.b].slots[u.bios[step.b].at.i]; slot.page == page && slot.puts == 0
  {
    ReachedInv(s, steps, compound);
    var u := After(s, steps, compound);
    if step.DirtyPage? {
      var x := u.bios[step.b];
      assert BioOk(x, compound);
      assert SlotOk(x.at, x.at.i, x.slots[x.at.i], compound[x.slots[x.at.i].page]);
    }
  }

  /** A dirty page is cleaned by writeback and by nothing else. */
  lemma CleanedIff(s: State, step: Step, compound: seq<bool>, page: nat)
    requires Enabled(s, step, compound) && page < |s.dirty| && s.dirty[page]
    ensures |Apply(s, step, compound).dirty| == |s.dirty|
    ensures !Apply(s, step, compound).dirty[page] <==> step == Writeback(page)
  {}

  /** Somewhere along the run, at its ends included, the page is dirty. */
  ghost predicate DirtyAlong(s: State, steps: seq<Step>, compound: seq<bool>, page: nat) {
    exists n: nat :: n <= |steps| && Possible(s, steps[..n], compound) && DirtyAfter(s, steps[..n], compound, page)
  }

  ghost predicate DirtyAfter(s: State, steps: seq<Step>, compound: seq<bool>, page: nat)
    requires Possible(s, steps, compound)
  {
    page < |After(s, steps, compound).dirty| && After(s, steps, compound).dirty[page]
  }

  lemma DirtySooner(s: State, steps: seq<Step>, compound: seq<bool>, page: nat)
    requires steps != [] && Enabled(s, steps[0], compound)
    requires DirtyAlong(Apply(s, steps[0], compound), steps[1..], compound, page)
    ensures DirtyAlong(s, steps, compound, page)
  {
    hide Enabled, Apply;
    var t := Apply(s, steps[0], compound);
    var n: nat :| n <= |steps[1..]| && Possible(t, steps[1..][..n], compound)
                  && DirtyAfter(t, steps[1..][..n], compound, page);
    assert steps[..n + 1][0] == steps[0] && steps[..n + 1][1..] == steps[1..][..n];
    assert DirtyAfter(s, steps[..n + 1], compound, page);
  }

  lemma {:induction false} DirtiedOnTheWay(s: State, steps: seq<Step>, compound: seq<bool>, b: nat, j: nat)
    requires Possible(s, steps, compound) && HasSlot(s, b, j) && !s.bios[b].slots[j].redirtied
    ensures var t := After(s, steps, compound);
            && HasSlot(t, b, j) && t.bios[b].slots[j].page == s.bios[b].slots[j].page
            && (s.bios[b].slots[j].wasClean ==> t.bios[b].slots[j].wasClean)
            && (t.bios[b].slots[j].redirtied ==> DirtyAlong(s, steps, compound, s.bios[b].slots[j].page))
    decreases |steps|
  {
    hide Enabled, Apply, DirtyAlong;
    if steps != [] {
      var t := Apply(s, steps[0], compound);
      SlotStays(s, steps[0], compound, b, j);
      if t.bios[b].slots[j].redirtied {
        TurnsDirty(s, steps[0], compound, b, j);
        FirstIsDirty(s, steps, compound, s.bios[b].slots[j].page);
        SlotStaysAlways(t, steps[1..], compound, b, j);
      } else {
        DirtiedOnTheWay(t, steps[1..], compound, b, j);
        if After(s, steps, compound).bios[b].slots[j].redirtied {
          DirtySooner(s, steps, compound, s.bios[b].slots[j].page);
        }
      }
    }
  }

  lemma FirstIsDirty(s: State, steps: seq<Step>, compound: seq<bool>, page: nat)
    requires steps != [] && Possible(s, steps, compound) && page < |Apply(s, steps[0], compound).dirty|
    requires Apply(s, steps[0], compound).dirty[page]
    ensures DirtyAlong(s, steps, compound, page)
  {
    hide Enabled, Apply;
    var t := Apply(s, steps[0], compound);
    assert steps[..1] == [steps[0]] && [steps[0]][1..] == [];
    assert After(t, [], compound) == t;
    assert DirtyAfter(s, steps[..1], compound, page);
  }

  lemma {:induction false} SlotStaysAlways(s: State, steps: seq<Step>, compound: seq<bool>, b: nat, j: nat)
    requires Possible(s, steps, compound) && HasSlot(s, b, j)
    ensures var t := After(s, steps, compound);
            && HasSlot(t, b, j) && t.bios[b].slots[j].page == s.bios[b].slots[j].page
            && (s.bios[b].slots[j].wasClean ==> t.bios[b].slots[j].wasClean)
    decreases |steps|
  {
    hide Enabled, Apply;
    if steps != [] {
      SlotStays(s, steps[0], compound, b, j);
      SlotStaysAlways(Apply(s, steps[0], compound), steps[1..], compound, b, j);
    }
  }

  /** A page is released by the worker only if it was found clean and dirtied, or not at all found clean. */
  lemma ReleaseMeans(s: State, step: Step, compound: seq<bool>, b: nat, j: nat)
    requires Inv(s, compound) && Enabled(s, step, compound) && HasSlot(s, b, j) && s.bios[b].slots[j].wasClean
    requires HasSlot(Apply(s, step, compound), b, j)
    requires Apply(s, step, compound).bios[b].slots[j].puts > s.bios[b].slots[j].puts
    ensures s.bios[b].slots[j].redirtied
  {
    assert BioOk(s.bios[b], compound);
    assert SlotOk(s.bios[b].at, j, s.bios[b].slots[j], compound[s.bios[b].slots[j].page]);
  }

  lemma FoundClean(s: State, compound: seq<bool>, b: nat)
    requires Inv(s, compound) && Enabled(s, CheckPage(b), compound)
    requires var page := s.bios[b].slots[s.bios[b].at.i].page; !s.dirty[page] && !compound[page]
    ensures var r, i := Apply(s, CheckPage(b), compound), s.bios[b].at.i;
            && HasSlot(r, b, i) && r.bios[b].slots[i].wasClean && !r.bios[b].slots[i].redirtied
            && r.bios[b].slots[i].page == s.bios[b].slots[i].page
  {
    var i := s.bios[b].at.i;
    assert BioOk(s.bios[b], compound);
    assert SlotOk(s.bios[b].at, i, s.bios[b].slots[i], compound[s.bios[b].slots[i].page]);
  }

  /** Over every run: if bio_check_pages_dirty found a page clean and not compound, then the page is dirty at
      some moment after that and before the step that releases it. */
  lemma CleanIsDirtiedFirst(s: State, before: seq<Step>, b: nat, between: seq<Step>, last: Step, compound: seq<bool>)
    requires Initial(s, compound) && Possible(s, before, compound)
    requires Enabled(After(s, before, compound), CheckPage(b), compound)
    requires var u := After(s, before, compound);
             var r, i := Apply(u, CheckPage(b), compound), u.bios[b].at.i;
             && !u.dirty[u.bios[b].slots[i].page] && !compound[u.bios[b].slots[i].page]
             && Possible(r, between, compound) && Enabled(After(r, between, compound), last, compound)
             && var v := After(r, between, compound);
                var w := Apply(v, last, compound);
                HasSlot(v, b, i) && HasSlot(w, b, i) && w.bios[b].slots[i].puts > v.bios[b].slots[i].puts
    ensures var u := After(s, before, compound);
            DirtyAlong(Apply(u, CheckPage(b), compound), between, compound, u.bios[b].slots[u.bios[b].at.i].page)
  {
    ReachedInv(s, before, compound);
    hide Inv, Initial, DirtyAlong;
    var u := After(s, before, compound);
    var i, r := u.bios[b].at.i, Apply(u, CheckPage(b), compound);
    FoundClean(u, compound, b);
    StepKeeps(u, CheckPage(b), compound);
    Always(r, between, compound);
    DirtiedOnTheWay(r, between, compound, b, i);
    ReleaseMeans(After(r, between, compound), last, compound, b, i);
  }

  /** No check or worker run is under way, and no work is scheduled or about to be. */
  ghost predicate Quiet(s: State) {
    && !s.scheduled && s.schedulers == 0
    && (forall w: nat :: w < |s.runs| ==> !s.runs[w].busy && s.runs[w].todo == [])
    && (forall b: nat :: b < |s.bios| ==> !s.bios[b].at.Checking?)
  }

  /** No queued bio is lost: when all is quiet, each bio that was checked has been put, exactly once,
      and each of its page references has been released, exactly once. */
  lemma AllReleased(s: State, steps: seq<Step>, compound: seq<bool>, b: nat)
    requires Initial(s, compound) && Possible(s, steps, compound) && Quiet(After(s, steps, compound))
    requires b < |After(s, steps, compound).bios| && !After(s, steps, compound).bios[b].at.InFlight?
    ensures var x := After(s, steps, compound).bios[b];
            x.puts == 1 && forall j: nat :: j < |x.slots| ==> x.slots[j].puts == 1 && Redirtied(x.slots[j])
  {
    ReachedInv(s, steps, compound);
    QuietMeansPut(After(s, steps, compound), compound, b);
  }

  lemma IdleRun(r: Run, bios: seq<Bio>, w: nat, b: nat)
    requires RunOk(r, bios, w) && !r.busy && r.todo == [] && b < |bios|
    ensures bios[b].at != Batch(w) && !InHand(bios[b].at, w)
  {
    EmptyList(bios, w, b);
  }

  lemma EmptyList(bios: seq<Bio>, w: nat, b: nat)
    requires ListOk([], bios, w) && b < |bios|
    ensures bios[b].at != Batch(w)
  {
    assert b !in [];
  }

  lemma Settled(t: State, compound: seq<bool>, b: nat)
    requires Inv(t, compound) && Quiet(t) && b < |t.bios|
    ensures t.bios[b].at.InFlight? || t.bios[b].at.Put?
  {
    match t.bios[b].at
    case Batch(w) => if w < |t.runs| { IdleRun(t.runs[w], t.bios, w, b); } else { EmptyList(t.bios, w, b); }
    case Dirtying(w, _) => IdleRun(t.runs[w], t.bios, w, b);
    case Releasing(w, _) => IdleRun(t.runs[w], t.bios, w, b);
    case _ =>
  }

  lemma QuietMeansPut(t: State, compound: seq<bool>, b: nat)
    requires Inv(t, compound) && Quiet(t) && b < |t.bios| && !t.bios[b].at.InFlight?
    ensures t.bios[b].at.Put? && t.bios[b].puts == 1
    ensures forall j: nat :: j < |t.bios[b].slots| ==> t.bios[b].slots[j].puts == 1 && Redirtied(t.bios[b].slots[j])
  {
    assert BioOk(t.bios[b], compound) && Known(t.bios[b].at, |t.runs|);
    var at := t.bios[b].at;
    Settled(t, compound, b);
    forall j: nat | j < |t.bios[b].slots| ensures t.bios[b].slots[j].puts == 1 && Redirtied(t.bios[b].slots[j]) {
      assert SlotOk(at, j, t.bios[b].slots[j], compound[t.bios[b].slots[j].page]);
    }
  }
}
