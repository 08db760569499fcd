/**
 fs/aio.c: the completion ring shared by a context and its readers.  Slots head, head + 1, ...,
 tail - 1 (modulo nr) hold the unread events; one slot always stays empty.
 */
module AioRing {
  import opened Machine

  /** struct io_event: which request, its user data and its results. */
  datatype Event = Event(obj: nat, data: int, res: int, res2: int)

  datatype Ring = Ring(nr: nat, head: nat, tail: nat, slots: seq<Event>) {
    predicate Valid() {
      nr > 0 && head < nr && tail < nr && |slots| == nr
    }
  }

  /* ---- Layout in pages ---- */

  const RING_HEADER: nat := 32
  const EVENT_SIZE: nat := 32
  const EVENTS_PER_PAGE: nat := PAGE / EVENT_SIZE
  const EVENTS_FIRST_PAGE: nat := (PAGE - RING_HEADER) / EVENT_SIZE
  const EVENTS_OFFSET: nat := EVENTS_PER_PAGE - EVENTS_FIRST_PAGE

  /** aio_setup_ring: pages needed for a header and max_reqs + 2 events, rounded up. */
  function RingPages(maxReqs: nat): nat {
    (RING_HEADER + EVENT_SIZE * (maxReqs + 2) + PAGE - 1) / PAGE
  }

  /** aio_setup_ring: the events that fit into those pages. */
  function RingEvents(maxReqs: nat): (nr: nat)
    ensures nr >= maxReqs + 2 && nr == EVENTS_PER_PAGE * RingPages(maxReqs) - 1
  {
    (PAGE * RingPages(maxReqs) - RING_HEADER) / EVENT_SIZE
  }

  /** aio_ring_event: the page of event n and its byte offset there. */
  function EventPlace(n: nat): (nat, nat) {
    var pos := n + EVENTS_OFFSET;
    (pos / EVENTS_PER_PAGE, EVENT_SIZE * (pos % EVENTS_PER_PAGE))
  }

  /** Every event of the ring lies inside the mapped pages, apart from the header and from every other event. */
  lemma EventsDoNotOverlap(maxReqs: nat, n: nat, m: nat)
    requires n < RingEvents(maxReqs) && m < RingEvents(maxReqs) && n != m
    ensures var (page, off) := EventPlace(n);
            && page < RingPages(maxReqs) && off + EVENT_SIZE <= PAGE
            && (page == 0 ==> off >= RING_HEADER)
            && (page == EventPlace(m).0 ==> off + EVENT_SIZE <= EventPlace(m).1 || EventPlace(m).1 + EVENT_SIZE <= off)
  {
    assert EVENTS_OFFSET == 1 && EVENTS_PER_PAGE == 128;
  }

  /* ---- The ring as a queue ---- */

  /** aio_ring_avail */
  function Avail(r: Ring): nat
    requires r.Valid()
  {
    (r.head + r.nr - 1 - r.tail) % r.nr
  }

  /** Number of unread events. */
  function Unread(r: Ring): (n: nat)
    requires r.Valid()
    ensures n < r.nr
  {
    if r.head <= r.tail then r.tail - r.head else r.tail + r.nr - r.head
  }

  function Slot(r: Ring, j: nat): (k: nat)
    requires r.Valid() && j < r.nr
    ensures k < r.nr
  {
    if r.head + j < r.nr then r.head + j else r.head + j - r.nr
  }

  /** The unread events, oldest first. */
  function Contents(r: Ring): (c: seq<Event>)
    requires r.Valid()
    ensures |c| == Unread(r)
  {
    seq(Unread(r), j requires 0 <= j < Unread(r) => r.slots[Slot(r, j)])
  }

  /** The free slots the admission test counts are all but one of those not holding unread events. */
  lemma AvailIsFree(r: Ring)
    requires r.Valid()
    ensures Avail(r) == r.nr - 1 - Unread(r)
  {
    var x := r.head + r.nr - 1 - r.tail;
    if r.head <= r.tail { SmallMod(x, r.nr); } else { SmallMod(x - r.nr, r.nr); OnceAround(x, r.nr); }
  }

  lemma SmallMod(x: nat, n: nat)
    requires x < n
    ensures x % n == x
  {}

  lemma OnceAround(x: nat, n: nat)
    requires n <= x < 2 * n
    ensures x % n == x - n
  {
    assert x == n + (x - n);
  }

  /** aio_complete's ring update. */
  function Push(r: Ring, e: Event): Ring
    requires r.Valid()
  {
    r.(slots := r.slots[r.tail := e], tail := (r.tail + 1) % r.nr)
  }

  /** aio_read_evt's head update. */
  function Pop(r: Ring): Ring
    requires r.Valid()
  {
    r.(head := (r.head + 1) % r.nr)
  }

  lemma Wrap(k: nat, n: nat)
    requires k < n
    ensures (k + 1) % n == if k + 1 < n then k + 1 else 0
  {
    if k + 1 < n { SmallMod(k + 1, n); }
  }

  /** With a free slot left, adding an event appends to the queue and overwrites nothing unread. */
  lemma PushAppends(r: Ring, e: Event)
    requires r.Valid() && Unread(r) < r.nr - 1
    ensures Push(r, e).Valid() && Contents(Push(r, e)) == Contents(r) + [e]
  {
    Wrap(r.tail, r.nr);
    var p := Push(r, e);
    assert Unread(p) == Unread(r) + 1;
    forall j | 0 <= j < Unread(p) ensures Contents(p)[j] == (Contents(r) + [e])[j] {
      assert Slot(p, j) == Slot(r, j);
      assert Slot(r, j) == r.tail <==> j == Unread(r);
    }
  }

  /** On a full ring the same update loses every unread event. */
  lemma PushOverrun(r: Ring, e: Event)
    requires r.Valid() && Unread(r) == r.nr - 1
    ensures Push(r, e).Valid() && Contents(Push(r, e)) == []
  {
    Wrap(r.tail, r.nr);
  }

  lemma PopRemovesFirst(r: Ring)
    requires r.Valid() && Unread(r) > 0
    ensures Pop(r).Valid() && Contents(Pop(r)) == Contents(r)[1..]
    ensures r.slots[r.head] == Contents(r)[0]
  {
    Wrap(r.head, r.nr);
    var p := Pop(r);
    assert Unread(p) == Unread(r) - 1;
    forall j | 0 <= j < Unread(p) ensures Contents(p)[j] == Contents(r)[1..][j] {
      assert Slot(p, j) == Slot(r, j + 1);
    }
  }

  /** Copies of tail: info->tail is the kernel's, ring->tail the one readers see. */
  class EventRing {
    const nr: nat
    const slots: array<Event>
    var head: nat
    var tail: nat
    var infoTail: nat

    ghost predicate Valid()
      reads this, slots
    {
      slots.Length == nr && tail == infoTail && View().Valid()
    }

    ghost function View(): Ring
      reads this, slots
    {
      Ring(nr, head, tail, slots[..])
    }

    /** aio_setup_ring for a context admitting maxReqs requests. */
    constructor (maxReqs: nat, filler: Event)
      ensures Valid() && fresh(slots) && nr == RingEvents(maxReqs) && Contents(View()) == []
    {
      nr := RingEvents(maxReqs);
      slots := new Event[RingEvents(maxReqs)](_ => filler);
      head, tail, infoTail := 0, 0, 0;
    }

    /** aio_complete: write the event, then publish the new tail. */
    method Add(e: Event)
      requires Valid()
      modifies this`tail, this`infoTail, slots
      ensures Valid() && View() == Push(old(View()), e)
      ensures old(Unread(View())) < nr - 1 ==> Contents(View()) == old(Contents(View())) + [e]
    {
      ghost var before := View();
      var t := infoTail;
      slots[t] := e;
      t := (t + 1) % nr;
      infoTail := t;
      tail := t;
      if Unread(before) < nr - 1 { PushAppends(before, e); }
    }

    /** aio_read_evt: take the oldest event, if there is one. */
    method Read() returns (ret: nat, ent: Event)
      requires Valid()
      modifies this`head
      ensures Valid() && ret == if old(Contents(View())) == [] then 0 else 1
      ensures ret == 1 ==> old(Contents(View())) == [ent] + Contents(View())
      ensures ret == 0 ==> View() == old(View())
    {
      ghost var before := View();
      ret := 0;
      ent := slots[head];
      if head == tail { return; }
      SmallMod(head, nr);
      var h := head % nr;
      if h != tail {
        ent := slots[h];
        PopRemovesFirst(before);
        h := (h + 1) % nr;
        head := h;
        ret := 1;
        assert View() == Pop(before);
      }
    }
  }
}
