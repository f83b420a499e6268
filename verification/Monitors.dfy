/**
 The pieróg kitchen on monitors: the same seven threads, with a lock and two condition variables for each buffer.
 A signalled or spuriously woken thread has to win the lock again, against newcomers, and checks its condition anew.
 */
module Monitors {
  import opened Pierogi
  import opened Rings

  const DOUGH: int := 0
  const BUFFERS: int := 4
  const THREADS: int := 7    // thread i < 4 produces for buffer i; thread 3 + i consumes from buffer i, then dough
  const NOBODY: int := -1

  /** Where a thread is in monitor_put or monitor_get. */
  datatype Phase =
    | Work       // outside: produce the item, or make the pieróg
    | Enter      // pthread_mutex_lock
    | Check      // with the lock: the condition of the while loop
    | Asleep     // in pthread_cond_wait
    | Woken      // woken up, waiting for the lock
    | Act        // with the lock: put or take the item
    | Signal     // with the lock: pthread_cond_signal
    | Unlock     // with the lock: pthread_mutex_unlock

  datatype Thread = Thread(buf: int, phase: Phase, item: int, filling: int)

  datatype Monitor = Monitor(slots: seq<int>, inp: int, outp: int, count: int, lock: int,
                             next: int, pushed: seq<int>, popped: nat)

  datatype Kitchen = Kitchen(mons: seq<Monitor>, threads: seq<Thread>, made: seq<Pierog>)
  {
    predicate Wf() {
      && |mons| == BUFFERS && |threads| == THREADS
      && (forall b :: 0 <= b < BUFFERS ==> Bounds(mons[b]))
      && (forall i :: 0 <= i < THREADS ==> At(i, threads[i].buf))
    }
  }

  predicate Bounds(m: Monitor) {
    0 <= m.inp < |m.slots| && 0 <= m.outp < |m.slots| && m.popped <= |m.pushed|
  }

  predicate Producer(i: int) { 0 <= i < BUFFERS }

  function Filling(i: int): int { i - 3 }

  predicate At(i: int, b: int) {
    if Producer(i) then b == i else b == DOUGH || b == Filling(i)
  }

  /** A move of the system: thread i goes on, waking w if it signals; or a sleeper wakes up for no reason. */
  datatype Move = Go(i: int, w: int) | Spurious(i: int)

  /** Thread w sleeps at buffer b and waits for what thread i signals there. */
  predicate Sleeper(ts: seq<Thread>, i: int, b: int, w: int) {
    0 <= w < |ts| && ts[w].buf == b && ts[w].phase.Asleep? && Producer(w) != Producer(i)
  }

  /** Thread i can go on without being woken. */
  predicate CanGo(k: Kitchen, i: int)
    requires k.Wf() && 0 <= i < THREADS
  {
    match k.threads[i].phase
    case Enter | Woken => k.mons[k.threads[i].buf].lock == NOBODY
    case Asleep => false
    case _ => true
  }

  ghost predicate Enabled(k: Kitchen, e: Move)
    requires k.Wf()
  {
    match e
    case Go(i, w) =>
      && 0 <= i < THREADS && CanGo(k, i)
      && (k.threads[i].phase.Signal? ==>
            var b := k.threads[i].buf;
            if exists x :: Sleeper(k.threads, i, b, x) then Sleeper(k.threads, i, b, w) else w == NOBODY)
    case Spurious(i) => 0 <= i < THREADS && k.threads[i].phase.Asleep?
  }

  /** What thread i does to its monitor and itself; a signal wakes no one here. */
  function Local(m: Monitor, t: Thread, i: int): (Monitor, Thread)
    requires Bounds(m)
  {
    match t.phase
    case Work =>
      if Producer(i) then (m.(next := m.next + 1), t.(phase := Enter, item := m.next))
      else (m, t.(phase := Enter, buf := Filling(i)))
    case Enter | Woken => (m.(lock := i), t.(phase := Check))
    case Check =>
      if (if Producer(i) then m.count == |m.slots| else m.count == 0) then (m.(lock := NOBODY), t.(phase := Asleep))
      else (m, t.(phase := Act))
    case Asleep => (m, t)
    case Act =>
      if Producer(i) then
        (m.(slots := m.slots[m.inp := t.item], inp := (m.inp + 1) % |m.slots|, count := m.count + 1,
             pushed := m.pushed + [t.item]),
         t.(phase := Signal))
      else
        (m.(outp := (m.outp + 1) % |m.slots|, count := m.count - 1, popped := m.popped + 1),
         t.(phase := Signal, item := m.slots[m.outp]))
    case Signal => (m, t.(phase := Unlock))
    case Unlock =>
      (m.(lock := NOBODY),
       if !Producer(i) && t.buf != DOUGH then t.(phase := Enter, buf := DOUGH, filling := t.item)
       else t.(phase := Work))
  }

  function Wake(ts: seq<Thread>, w: int): (r: seq<Thread>)
    ensures |r| == |ts|
  {
    if 0 <= w < |ts| then ts[w := ts[w].(phase := Woken)] else ts
  }

  ghost function Next(k: Kitchen, e: Move): (r: Kitchen)
    requires k.Wf() && Enabled(k, e)
  {
    match e
    case Go(i, w) =>
      var t := k.threads[i];
      var (m, u) := Local(k.mons[t.buf], t, i);
      var ts := k.threads[i := u];
      Kitchen(k.mons[t.buf := m], if t.phase.Signal? then Wake(ts, w) else ts,
              if !Producer(i) && t.phase.Work? then k.made + [Pierog(t.item, t.filling, Filling(i))] else k.made)
    case Spurious(i) => k.(threads := Wake(k.threads, i))
  }

  function Start(n: nat): Kitchen {
    Kitchen(seq(BUFFERS, b => Monitor(seq(n, j => 0), 0, 0, 0, NOBODY, 0, [], 0)),
            seq(THREADS, i => if Producer(i) then Thread(i, Work, 0, 0) else Thread(Filling(i), Enter, 0, 0)), [])
  }

  // ---------------------------------------------------------------- the invariant of one monitor

  predicate Locked(p: Phase) { p.Check? || p.Act? || p.Signal? || p.Unlock? }

  /** Woken up or inside, and about to take: such a consumer accounts for one item. */
  predicate Coming(p: Phase) { p.Woken? || p.Check? || p.Act? }

  function Comers(ts: seq<Thread>, b: int): nat
    requires |ts| == THREADS
  {
    One(ts[4].buf == b && Coming(ts[4].phase)) + One(ts[5].buf == b && Coming(ts[5].phase))
      + One(ts[6].buf == b && Coming(ts[6].phase))
  }

  function Signallers(ts: seq<Thread>, b: int): nat
    requires |ts| == THREADS
  {
    One(ts[4].buf == b && ts[4].phase.Signal?) + One(ts[5].buf == b && ts[5].phase.Signal?)
      + One(ts[6].buf == b && ts[6].phase.Signal?)
  }

  /** The lock is held by the thread that is inside. */
  ghost predicate LockOk(m: Monitor, ts: seq<Thread>, b: int)
    requires |ts| == THREADS
  {
    && NOBODY <= m.lock < THREADS
    && forall i :: 0 <= i < THREADS ==> ((ts[i].buf == b && Locked(ts[i].phase)) <==> m.lock == i)
  }

  /** The ring holds the items put and not taken; whoever acts has room or an item. */
  ghost predicate QueueOk(m: Monitor, ts: seq<Thread>, b: int)
    requires |ts| == THREADS && 0 <= b < BUFFERS
  {
    && Holds(m.slots, m.pushed, m.popped) && m.count == |m.pushed| - m.popped
    && m.inp == Slot(|m.pushed|, |m.slots|) && m.outp == Slot(m.popped, |m.slots|)
    && (forall i :: 0 <= i < THREADS && ts[i].buf == b && ts[i].phase.Act? ==>
          if Producer(i) then m.count < |m.slots| else m.count > 0)
  }

  /** No wake-up is lost: sleepers remain only while others who are awake account for every item, or for all room. */
  ghost predicate Wakeups(m: Monitor, ts: seq<Thread>, b: int)
    requires |ts| == THREADS && 0 <= b < BUFFERS
  {
    && (forall i :: BUFFERS <= i < THREADS && ts[i].buf == b && ts[i].phase.Asleep? ==>
      m.count <= Comers(ts, b) + One(ts[b].phase.Signal?))
    && (ts[b].phase.Asleep? ==> |m.slots| - m.count <= Signallers(ts, b))
  }

  /** The producer's items are numbered in the order they are put. */
  ghost predicate Numbered(m: Monitor, p: Thread) {
    && (forall j :: 0 <= j < |m.pushed| ==> m.pushed[j] == j)
    && (if p.phase.Work? || p.phase.Signal? || p.phase.Unlock? then m.next == |m.pushed|
        else m.next == |m.pushed| + 1 && p.item == |m.pushed|)
  }

  ghost predicate MonInv(m: Monitor, ts: seq<Thread>, b: int)
    requires |ts| == THREADS && 0 <= b < BUFFERS
  {
    Bounds(m) && LockOk(m, ts, b) && QueueOk(m, ts, b) && Wakeups(m, ts, b) && Numbered(m, ts[b])
  }

  // ---------------------------------------------------------------- the ingredients

  /** Behind the critical section of monitor_get. */
  predicate Leaving(p: Phase) { p.Signal? || p.Unlock? }

  /** What the consumer of filling f holds between taking it out and making the pieróg. */
  function HandOf(t: Thread, f: int): Hand {
    Hand((t.buf == f && Leaving(t.phase)) || t.buf == DOUGH, if t.buf == f then t.item else t.filling,
         t.buf == DOUGH && (Leaving(t.phase) || t.phase.Work?), t.item)
  }

  function HandsOf(ts: seq<Thread>): seq<Hand>
    requires |ts| == THREADS
  {
    [HandOf(ts[4], 1), HandOf(ts[5], 2), HandOf(ts[6], 3)]
  }

  function TakenFrom(ms: seq<Monitor>): seq<int>
    requires |ms| == BUFFERS
  {
    [ms[0].popped, ms[1].popped, ms[2].popped, ms[3].popped]
  }

  /** Consumers make a pieróg after taking dough, and every ingredient is accounted for. */
  ghost predicate PantryInv(k: Kitchen)
    requires k.Wf()
  {
    && (forall i :: BUFFERS <= i < THREADS && k.threads[i].phase.Work? ==> k.threads[i].buf == DOUGH)
    && Pantry(k.made, HandsOf(k.threads), TakenFrom(k.mons))
  }

  ghost predicate KitchenInv(k: Kitchen, n: nat) {
    && k.Wf() && (forall b :: 0 <= b < BUFFERS ==> |k.mons[b].slots| == n && MonInv(k.mons[b], k.threads, b))
    && PantryInv(k)
  }

  /** What is in the buffer, oldest first. */
  function Contents(m: Monitor): seq<int>
    requires m.popped <= |m.pushed|
  {
    m.pushed[m.popped..]
  }
}
