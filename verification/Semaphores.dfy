/**
 The pieróg kitchen on semaphores: four producers and three consumers, interleaved one semaphore operation or one
 access to a shared buffer at a time.
 */
module Semaphores {
  import opened Pierogi
  import opened Rings

  const DOUGH: int := 0
  const BUFFERS: int := 4    // dough, meat, cabbage, cheese
  const THREADS: int := 7    // thread i < 4 produces for buffer i; thread 3 + i consumes from buffer i, then dough

  /** The next thing a thread does at its buffer. */
  datatype Phase =
    | Work       // produce the item, or make the pieróg
    | Wait       // down(&empty), or down(&full) for a consumer
    | Lock       // down(&mutex)
    | Touch      // write or read the slot
    | Move       // advance in or out
    | Unlock     // up(&mutex)
    | Post       // up(&full), or up(&empty) for a consumer

  datatype Thread = Thread(buf: int, phase: Phase, item: int, filling: int)

  /** One buffer with its semaphores. next is the counter of its producer; pushed and popped are its history. */
  datatype Ring = Ring(slots: seq<int>, inp: int, outp: int, mutex: int, full: int, empty: int,
                       next: int, pushed: seq<int>, popped: nat)

  datatype Kitchen = Kitchen(rings: seq<Ring>, threads: seq<Thread>, made: seq<Pierog>)
  {
    predicate Wf() {
      && |rings| == BUFFERS && |threads| == THREADS
      && (forall b :: 0 <= b < BUFFERS ==> Bounds(rings[b]))
      && (forall i :: 0 <= i < THREADS ==> At(i, threads[i].buf))
    }
  }

  predicate Bounds(r: Ring) {
    0 <= r.inp < |r.slots| && 0 <= r.outp < |r.slots| && r.popped <= |r.pushed|
  }

  predicate Producer(i: int) { 0 <= i < BUFFERS }

  /** The filling a consumer works with. */
  function Filling(i: int): int { i - 3 }

  /** Thread i has business at buffer b. */
  predicate At(i: int, b: int) {
    if Producer(i) then b == i else b == DOUGH || b == Filling(i)
  }

  /** Whether the semaphore thread i is about to take, if any, is positive. */
  predicate CanStep(k: Kitchen, i: int)
    requires k.Wf() && 0 <= i < THREADS
  {
    var t := k.threads[i];
    var r := k.rings[t.buf];
    match t.phase
    case Wait => (if Producer(i) then r.empty else r.full) > 0
    case Lock => r.mutex > 0
    case _ => true
  }

  /** What a producer does to its buffer and itself. */
  function Produce(r: Ring, t: Thread): (Ring, Thread)
    requires Bounds(r)
  {
    match t.phase
    case Work => (r.(next := r.next + 1), t.(phase := Wait, item := r.next))
    case Wait => (r.(empty := r.empty - 1), t.(phase := Lock))
    case Lock => (r.(mutex := r.mutex - 1), t.(phase := Touch))
    case Touch => (r.(slots := r.slots[r.inp := t.item]), t.(phase := Move))
    case Move => (r.(inp := (r.inp + 1) % |r.slots|, pushed := r.pushed + [t.item]), t.(phase := Unlock))
    case Unlock => (r.(mutex := r.mutex + 1), t.(phase := Post))
    case Post => (r.(full := r.full + 1), t.(phase := Work))
  }

  /** What a consumer of filling f does to the buffer it is at and itself. */
  function Consume(r: Ring, t: Thread, f: int): (Ring, Thread)
    requires Bounds(r)
  {
    match t.phase
    case Work => (r, t.(phase := Wait, buf := f))
    case Wait => (r.(full := r.full - 1), t.(phase := Lock))
    case Lock => (r.(mutex := r.mutex - 1), t.(phase := Touch))
    case Touch => (r, t.(phase := Move, item := r.slots[r.outp]))
    case Move => (r.(outp := (r.outp + 1) % |r.slots|, popped := r.popped + 1), t.(phase := Unlock))
    case Unlock => (r.(mutex := r.mutex + 1), t.(phase := Post))
    case Post =>
      (r.(empty := r.empty + 1),
       if t.buf == DOUGH then t.(phase := Work) else t.(phase := Wait, buf := DOUGH, filling := t.item))
  }

  /** One step of thread i. */
  function Step(k: Kitchen, i: int): (r: Kitchen)
    requires k.Wf() && 0 <= i < THREADS
  {
    var t := k.threads[i];
    var (r, u) := if Producer(i) then Produce(k.rings[t.buf], t) else Consume(k.rings[t.buf], t, Filling(i));
    Kitchen(k.rings[t.buf := r], k.threads[i := u],
            if !Producer(i) && t.phase.Work? then k.made + [Pierog(t.item, t.filling, Filling(i))] else k.made)
  }

  /** main: N slots and N empty tokens for every buffer; consumers start waiting for their filling. */
  function Start(n: nat): Kitchen {
    Kitchen(seq(BUFFERS, b => Ring(seq(n, j => 0), 0, 0, 1, 0, n, 0, [], 0)),
            seq(THREADS, i => if Producer(i) then Thread(i, Work, 0, 0) else Thread(Filling(i), Wait, 0, 0)), [])
  }

  // ---------------------------------------------------------------- the invariant of one buffer

  predicate Taking(p: Phase) { p.Lock? || p.Touch? || p.Move? }      // has a token, has not moved the index
  predicate Giving(p: Phase) { p.Unlock? || p.Post? }                // has moved the index, owes a token
  predicate Inside(p: Phase) { p.Touch? || p.Move? || p.Unlock? }    // holds the mutex

  function Takers(ts: seq<Thread>, b: int): nat
    requires |ts| == THREADS
  {
    One(ts[4].buf == b && Taking(ts[4].phase)) + One(ts[5].buf == b && Taking(ts[5].phase))
      + One(ts[6].buf == b && Taking(ts[6].phase))
  }

  function Givers(ts: seq<Thread>, b: int): nat
    requires |ts| == THREADS
  {
    One(ts[4].buf == b && Giving(ts[4].phase)) + One(ts[5].buf == b && Giving(ts[5].phase))
      + One(ts[6].buf == b && Giving(ts[6].phase))
  }

  function Insiders(ts: seq<Thread>, b: int): nat
    requires |ts| == THREADS
  {
    One(ts[4].buf == b && Inside(ts[4].phase)) + One(ts[5].buf == b && Inside(ts[5].phase))
      + One(ts[6].buf == b && Inside(ts[6].phase))
  }

  /** Every token is in a semaphore or in the hands of a thread, and the mutex is free or held by one thread. */
  ghost predicate Tokens(r: Ring, ts: seq<Thread>, b: int)
    requires |ts| == THREADS && 0 <= b < BUFFERS
  {
    && r.mutex >= 0 && r.full >= 0 && r.empty >= 0 && r.popped <= |r.pushed|
    && r.full + Takers(ts, b) + One(Giving(ts[b].phase)) == |r.pushed| - r.popped
    && r.empty + One(Taking(ts[b].phase)) + Givers(ts, b) == |r.slots| - (|r.pushed| - r.popped)
    && r.mutex + One(Inside(ts[b].phase)) + Insiders(ts, b) == 1
  }

  /** The slots hold what has been pushed and not popped; items are numbered in the order of production. */
  ghost predicate Slots(r: Ring, p: Thread) {
    && Holds(r.slots, r.pushed, r.popped)
    && r.inp == Slot(|r.pushed|, |r.slots|) && r.outp == Slot(r.popped, |r.slots|)
    && (forall j :: 0 <= j < |r.pushed| ==> r.pushed[j] == j)
    && (if p.phase.Work? || Giving(p.phase) then r.next == |r.pushed|
        else r.next == |r.pushed| + 1 && p.item == |r.pushed|)
    && (p.phase.Move? ==> r.slots[r.inp] == p.item)
  }

  /** A consumer that has read the slot holds the oldest item. */
  ghost predicate Hands(r: Ring, ts: seq<Thread>, b: int)
    requires |ts| == THREADS
  {
    forall i :: 4 <= i < THREADS && ts[i].buf == b && ts[i].phase.Move? ==> ts[i].item == r.popped
  }

  ghost predicate RingInv(r: Ring, ts: seq<Thread>, b: int)
    requires |ts| == THREADS && 0 <= b < BUFFERS
  {
    Bounds(r) && Tokens(r, ts, b) && Slots(r, ts[b]) && Hands(r, ts, b)
  }

  // ---------------------------------------------------------------- the ingredients

  /** What the consumer of filling f holds between taking it out and making the pieróg. */
  function HandOf(t: Thread, f: int): Hand {
    Hand((t.buf == f && Giving(t.phase)) || t.buf == DOUGH, if t.buf == f then t.item else t.filling,
         t.buf == DOUGH && (Giving(t.phase) || t.phase.Work?), t.item)
  }

  function HandsOf(ts: seq<Thread>): seq<Hand>
    requires |ts| == THREADS
  {
    [HandOf(ts[4], 1), HandOf(ts[5], 2), HandOf(ts[6], 3)]
  }

  function TakenFrom(rs: seq<Ring>): seq<int>
    requires |rs| == BUFFERS
  {
    [rs[0].popped, rs[1].popped, rs[2].popped, rs[3].popped]
  }

  /** Consumers make a pieróg after taking dough, and every ingredient is accounted for. */
  ghost predicate PantryInv(k: Kitchen)
    requires k.Wf()
  {
    && (forall i :: BUFFERS <= i < THREADS && k.threads[i].phase.Work? ==> k.threads[i].buf == DOUGH)
    && Pantry(k.made, HandsOf(k.threads), TakenFrom(k.rings))
  }

  ghost predicate KitchenInv(k: Kitchen, n: nat) {
    && k.Wf() && (forall b :: 0 <= b < BUFFERS ==> |k.rings[b].slots| == n && RingInv(k.rings[b], k.threads, b))
    && PantryInv(k)
  }
}
