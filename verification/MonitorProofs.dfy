/**
 Every run of the monitor kitchen, with barging and spurious wake-ups, refines bounded FIFO queues, loses no wake-up
 and never gets stuck.
 */
module MonitorProofs {
  import opened Pierogi
  import opened Rings
  import opened Monitors

  predicate Consumer(i: int) { BUFFERS <= i < THREADS }

  /** Thread i may go on at its monitor. */
  predicate Ready(m: Monitor, t: Thread) {
    match t.phase
    case Enter | Woken => m.lock == NOBODY
    case Asleep => false
    case _ => true
  }

  lemma CountsUpdate(ts: seq<Thread>, b: int, i: int, u: Thread)
    requires |ts| == THREADS && Consumer(i)
    ensures Comers(ts[i := u], b) ==
      Comers(ts, b) - One(ts[i].buf == b && Coming(ts[i].phase)) + One(u.buf == b && Coming(u.phase))
    ensures Signallers(ts[i := u], b) ==
      Signallers(ts, b) - One(ts[i].buf == b && ts[i].phase.Signal?) + One(u.buf == b && u.phase.Signal?)
  {
    if i == 4 {} else if i == 5 {} else {}
  }

  lemma CountsSame(ts: seq<Thread>, b: int, i: int, u: Thread)
    requires |ts| == THREADS && Producer(i)
    ensures Comers(ts[i := u], b) == Comers(ts, b) && Signallers(ts[i := u], b) == Signallers(ts, b)
  {
  }

  // ---------------------------------------------------------------- the thread's own monitor

  lemma LockKeeps(m: Monitor, ts: seq<Thread>, b: int, i: int)
    requires |ts| == THREADS && 0 <= b < BUFFERS && 0 <= i < THREADS && ts[i].buf == b && At(i, b)
    requires Bounds(m) && LockOk(m, ts, b) && Ready(m, ts[i])
    ensures LockOk(Local(m, ts[i], i).0, ts[i := Local(m, ts[i], i).1], b)
  {
  }

  /** Putting or taking, by the only thread inside. */
  lemma ActKeeps(m: Monitor, ts: seq<Thread>, b: int, i: int)
    requires |ts| == THREADS && 0 <= b < BUFFERS && 0 <= i < THREADS && ts[i].buf == b && ts[i].phase.Act?
    requires Bounds(m) && LockOk(m, ts, b) && QueueOk(m, ts, b)
    ensures Bounds(Local(m, ts[i], i).0) && QueueOk(Local(m, ts[i], i).0, ts[i := Local(m, ts[i], i).1], b)
  {
    hide Slot;
    var t := ts[i];
    assert forall j :: 0 <= j < THREADS && j != i && ts[j].buf == b ==> !ts[j].phase.Act?;
    if Producer(i) {
      HoldsStore(m.slots, m.pushed, m.popped, t.item);
      HoldsAppend(m.slots[m.inp := t.item], m.pushed, m.popped, t.item);
      SlotNext(|m.pushed|, |m.slots|);
    } else {
      SlotNext(m.popped, |m.slots|);
    }
  }

  lemma QueueKeeps(m: Monitor, ts: seq<Thread>, b: int, i: int)
    requires |ts| == THREADS && 0 <= b < BUFFERS && 0 <= i < THREADS && ts[i].buf == b && At(i, b)
    requires Bounds(m) && LockOk(m, ts, b) && QueueOk(m, ts, b) && Ready(m, ts[i])
    ensures Bounds(Local(m, ts[i], i).0) && QueueOk(Local(m, ts[i], i).0, ts[i := Local(m, ts[i], i).1], b)
  {
    if ts[i].phase.Act? { ActKeeps(m, ts, b, i); }
  }

  /** A step that signals no one keeps the wake-up accounts. */
  lemma WakeupsKept(m: Monitor, ts: seq<Thread>, b: int, i: int)
    requires |ts| == THREADS && 0 <= b < BUFFERS && 0 <= i < THREADS && ts[i].buf == b && At(i, b)
      && !ts[i].phase.Signal?
    requires Bounds(m) && QueueOk(m, ts, b) && Wakeups(m, ts, b) && Ready(m, ts[i])
    ensures Wakeups(Local(m, ts[i], i).0, ts[i := Local(m, ts[i], i).1], b)
  {
    hide Comers, Signallers, Holds;
    var u := Local(m, ts[i], i).1;
    if Producer(i) { CountsSame(ts, b, i, u); } else { CountsUpdate(ts, b, i, u); }
  }

  lemma NumberedKept(m: Monitor, p: Thread, b: int)
    requires Bounds(m) && Numbered(m, p) && Producer(b) && Ready(m, p)
    ensures Numbered(Local(m, p, b).0, Local(m, p, b).1)
  {
  }

  lemma NumberedOther(m: Monitor, p: Thread, t: Thread, i: int)
    requires Bounds(m) && Numbered(m, p) && Consumer(i)
    ensures Numbered(Local(m, t, i).0, p)
  {
  }

  lemma LocalKeeps(m: Monitor, ts: seq<Thread>, b: int, i: int)
    requires |ts| == THREADS && 0 <= b < BUFFERS && 0 <= i < THREADS && ts[i].buf == b && At(i, b)
      && !ts[i].phase.Signal?
    requires MonInv(m, ts, b) && Ready(m, ts[i])
    ensures MonInv(Local(m, ts[i], i).0, ts[i := Local(m, ts[i], i).1], b) && |Local(m, ts[i], i).0.slots| == |m.slots|
  {
    LockKeeps(m, ts, b, i);
    QueueKeeps(m, ts, b, i);
    WakeupsKept(m, ts, b, i);
    if Producer(i) { NumberedKept(m, ts[i], i); } else { NumberedOther(m, ts[b], ts[i], i); }
  }

  // ---------------------------------------------------------------- signals and wake-ups

  /** After the signal of thread i, which wakes w if anyone sleeps on the other condition. */
  function Signalled(ts: seq<Thread>, i: int, w: int): (r: seq<Thread>)
    requires |ts| == THREADS && 0 <= i < THREADS
    ensures |r| == THREADS
  {
    Wake(ts[i := ts[i].(phase := Unlock)], w)
  }

  lemma SignalWakeups(m: Monitor, ts: seq<Thread>, b: int, i: int, w: int)
    requires |ts| == THREADS && 0 <= b < BUFFERS && 0 <= i < THREADS && ts[i].buf == b && At(i, b)
      && ts[i].phase.Signal?
    requires Wakeups(m, ts, b) && forall j :: 0 <= j < THREADS && Producer(j) ==> ts[j].buf == j
    requires if exists x :: Sleeper(ts, i, b, x) then Sleeper(ts, i, b, w) else w == NOBODY
    ensures Wakeups(m, Signalled(ts, i, w), b)
  {
    hide Comers, Signallers;
    var ts1 := ts[i := ts[i].(phase := Unlock)];
    if Producer(i) {
      assert i == b;
      CountsSame(ts, b, i, ts1[i]);
      if Consumer(w) {
        CountsUpdate(ts1, b, w, ts1[w].(phase := Woken));
      } else {
        assert forall j :: BUFFERS <= j < THREADS && ts[j].buf == b && ts[j].phase.Asleep? ==> Sleeper(ts, i, b, j);
      }
    } else {
      CountsUpdate(ts, b, i, ts1[i]);
      if ts[b].phase.Asleep? { assert Sleeper(ts, i, b, b); }
      if Producer(w) { CountsSame(ts1, b, w, ts1[w].(phase := Woken)); }
    }
  }

  lemma SignalKeeps(m: Monitor, ts: seq<Thread>, b: int, i: int, w: int)
    requires |ts| == THREADS && 0 <= b < BUFFERS && 0 <= i < THREADS && ts[i].buf == b && At(i, b)
      && ts[i].phase.Signal?
    requires MonInv(m, ts, b) && forall j :: 0 <= j < THREADS && Producer(j) ==> ts[j].buf == j
    requires if exists x :: Sleeper(ts, i, b, x) then Sleeper(ts, i, b, w) else w == NOBODY
    ensures MonInv(m, Signalled(ts, i, w), b)
  {
    SignalWakeups(m, ts, b, i, w);
  }

  /** Being woken, by a signal elsewhere or for no reason, only moves a sleeper to those who come. */
  lemma WakeKeeps(m: Monitor, ts: seq<Thread>, b: int, w: int)
    requires |ts| == THREADS && 0 <= b < BUFFERS && 0 <= w < THREADS && ts[w].phase.Asleep? && At(w, ts[w].buf)
      && MonInv(m, ts, b)
    ensures MonInv(m, Wake(ts, w), b)
  {
    var u := ts[w].(phase := Woken);
    if Producer(w) { CountsSame(ts, b, w, u); } else { CountsUpdate(ts, b, w, u); }
    hide Comers, Signallers, Holds;
  }

  /** A step at another buffer. */
  lemma OtherMonitor(m: Monitor, ts: seq<Thread>, b: int, i: int, u: Thread)
    requires |ts| == THREADS && 0 <= b < BUFFERS && 0 <= i < THREADS && i != b && MonInv(m, ts, b)
    requires ts[i].buf != b && (u.buf != b || u.phase.Enter?)
    ensures MonInv(m, ts[i := u], b)
  {
    if Producer(i) { CountsSame(ts, b, i, u); } else { CountsUpdate(ts, b, i, u); }
    hide Comers, Signallers, Holds;
  }

  // ---------------------------------------------------------------- steps

  lemma OwnBuffers(k: Kitchen)
    requires k.Wf()
    ensures forall j :: 0 <= j < THREADS && Producer(j) ==> k.threads[j].buf == j
  {
    forall j | 0 <= j < THREADS && Producer(j) ensures k.threads[j].buf == j { assert At(j, k.threads[j].buf); }
  }

  lemma GoKeeps(k: Kitchen, n: nat, i: int, w: int, b: int)
    requires KitchenInv(k, n) && Enabled(k, Go(i, w)) && 0 <= b < BUFFERS
    ensures |Next(k, Go(i, w)).mons[b].slots| == n && MonInv(Next(k, Go(i, w)).mons[b], Next(k, Go(i, w)).threads, b)
  {
    hide MonInv, PantryInv;
    var t := k.threads[i];
    assert At(i, t.buf);
    OwnBuffers(k);
    if t.phase.Signal? {
      if b == t.buf {
        SignalKeeps(k.mons[b], k.threads, b, i, w);
      } else {
        OtherMonitor(k.mons[b], k.threads, b, i, t.(phase := Unlock));
        if 0 <= w < THREADS {
          var ts := k.threads[i := t.(phase := Unlock)];
          assert At(w, ts[w].buf);
          WakeKeeps(k.mons[b], ts, b, w);
        }
      }
    } else {
      if b == t.buf {
        LocalKeeps(k.mons[b], k.threads, b, i);
      } else {
        OtherMonitor(k.mons[b], k.threads, b, i, Local(k.mons[t.buf], t, i).1);
      }
    }
  }

  lemma NextMonitors(k: Kitchen, n: nat, e: Move, b: int)
    requires KitchenInv(k, n) && Enabled(k, e) && 0 <= b < BUFFERS
    ensures |Next(k, e).mons[b].slots| == n && MonInv(Next(k, e).mons[b], Next(k, e).threads, b)
      && Bounds(Next(k, e).mons[b])
  {
    hide PantryInv;
    match e
    case Go(i, w) => GoKeeps(k, n, i, w, b);
    case Spurious(i) =>
      assert At(i, k.threads[i].buf);
      WakeKeeps(k.mons[b], k.threads, b, i);
  }

  lemma NextWf(k: Kitchen, n: nat, e: Move)
    requires KitchenInv(k, n) && Enabled(k, e)
    ensures Next(k, e).Wf()
  {
    hide MonInv, PantryInv;
    var r := Next(k, e);
    forall b | 0 <= b < BUFFERS ensures Bounds(r.mons[b]) {
      NextMonitors(k, n, e, b);
    }
    forall j | 0 <= j < THREADS ensures At(j, r.threads[j].buf) {
      assert At(j, k.threads[j].buf);
    }
  }

  // ---------------------------------------------------------------- the ingredients

  lemma HandsUpdate(ts: seq<Thread>, i: int, u: Thread)
    requires |ts| == THREADS && 0 <= i < THREADS
    ensures HandsOf(ts[i := u]) == if Producer(i) then HandsOf(ts) else HandsOf(ts)[i - 4 := HandOf(u, Filling(i))]
    ensures !Producer(i) ==> HandsOf(ts)[i - 4] == HandOf(ts[i], Filling(i))
  {
    if i == 4 {} else if i == 5 {} else if i == 6 {}
  }

  lemma TakenUpdate(ms: seq<Monitor>, b: int, m: Monitor)
    requires |ms| == BUFFERS && 0 <= b < BUFFERS
    ensures TakenFrom(ms[b := m]) == TakenFrom(ms)[b := m.popped] && TakenFrom(ms)[b] == ms[b].popped
  {
    if b == 0 {} else if b == 1 {} else if b == 2 {} else {}
  }

  /** A wake-up changes nothing in anyone's hands. */
  lemma WakeHands(ts: seq<Thread>, w: int)
    requires |ts| == THREADS && (0 <= w < THREADS ==> ts[w].phase.Asleep?)
    ensures HandsOf(Wake(ts, w)) == HandsOf(ts)
  {
    if 0 <= w < THREADS { HandsUpdate(ts, w, ts[w].(phase := Woken)); }
  }

  /** What the next step of consumer i does to its hand. */
  lemma LocalHand(k: Kitchen, i: int)
    requires k.Wf() && Consumer(i) && (k.threads[i].phase.Work? ==> k.threads[i].buf == DOUGH)
    requires var m := k.mons[k.threads[i].buf]; k.threads[i].phase.Act? ==> m.slots[m.outp] == m.popped
    ensures var t := k.threads[i]; var (m, u) := Local(k.mons[t.buf], t, i);
      && (u.phase.Work? ==> u.buf == DOUGH)
      && HandStep(i - 4, HandOf(t, Filling(i)), HandOf(u, Filling(i)), TakenFrom(k.mons), TakenFrom(k.mons[t.buf := m]),
                  k.made, if t.phase.Work? then k.made + [Pierog(t.item, t.filling, Filling(i))] else k.made)
  {
    var t := k.threads[i];
    assert At(i, t.buf);
    TakenUpdate(k.mons, t.buf, Local(k.mons[t.buf], t, i).0);
    hide TakenFrom;
    if !t.phase.Act? { assert TakenFrom(k.mons)[t.buf := k.mons[t.buf].popped] == TakenFrom(k.mons); }
  }

  lemma PantryShape(k: Kitchen)
    requires k.Wf()
    ensures |HandsOf(k.threads)| == CONSUMERS && |TakenFrom(k.mons)| == KINDS
      && TakenFrom(k.mons)[0] == k.mons[0].popped
  {
  }

  /** The item a consumer takes is the next number. */
  lemma TakesNext(k: Kitchen, n: nat, i: int)
    requires KitchenInv(k, n) && Consumer(i) && k.threads[i].phase.Act?
    ensures var m := k.mons[k.threads[i].buf]; m.slots[m.outp] == m.popped
  {
    hide PantryInv;
    var b := k.threads[i].buf;
    assert At(i, b) && MonInv(k.mons[b], k.threads, b);
  }

  /** The step of a producer. */
  lemma PutPantry(k: Kitchen, i: int)
    requires k.Wf() && PantryInv(k) && Producer(i) && k.threads[i].buf == i
    ensures var (m, u) := Local(k.mons[i], k.threads[i], i);
      Pantry(k.made, HandsOf(k.threads[i := u]), TakenFrom(k.mons[i := m]))
  {
    hide Pantry, HandsOf, TakenFrom;
    var (m, u) := Local(k.mons[i], k.threads[i], i);
    HandsUpdate(k.threads, i, u);
    TakenUpdate(k.mons, i, m);
    PantryShape(k);
    assert TakenFrom(k.mons)[i := m.popped] == TakenFrom(k.mons);
  }

  /** The step of a consumer. */
  lemma GetPantry(k: Kitchen, n: nat, i: int)
    requires KitchenInv(k, n) && Consumer(i)
    ensures var t := k.threads[i]; var (m, u) := Local(k.mons[t.buf], t, i);
      && (u.phase.Work? ==> u.buf == DOUGH)
      && Pantry(if t.phase.Work? then k.made + [Pierog(t.item, t.filling, Filling(i))] else k.made,
                HandsOf(k.threads[i := u]), TakenFrom(k.mons[t.buf := m]))
  {
    var t := k.threads[i];
    assert At(i, t.buf);
    if t.phase.Act? { TakesNext(k, n, i); }
    LocalHand(k, i);
    hide MonInv, Pantry, HandOf, HandStep, Local;
    var (m, u) := Local(k.mons[t.buf], t, i);
    HandsUpdate(k.threads, i, u);
    PantryShape(k);
    hide HandsOf, TakenFrom;
    HandSteps(k.made, if t.phase.Work? then k.made + [Pierog(t.item, t.filling, Filling(i))] else k.made,
              HandsOf(k.threads), i - 4, HandOf(u, Filling(i)), TakenFrom(k.mons), TakenFrom(k.mons[t.buf := m]));
  }

  lemma NextPantry(k: Kitchen, n: nat, e: Move)
    requires KitchenInv(k, n) && Enabled(k, e) && Next(k, e).Wf()
    ensures PantryInv(Next(k, e))
  {
    hide MonInv, Pantry, HandsOf, TakenFrom;
    match e
    case Go(i, w) =>
      var t := k.threads[i];
      assert At(i, t.buf);
      if Producer(i) { PutPantry(k, i); } else { GetPantry(k, n, i); }
      if t.phase.Signal? { WakeHands(k.threads[i := Local(k.mons[t.buf], t, i).1], w); }
    case Spurious(i) => WakeHands(k.threads, i);
  }

  lemma NextKeeps(k: Kitchen, n: nat, e: Move)
    requires KitchenInv(k, n) && Enabled(k, e)
    ensures KitchenInv(Next(k, e), n)
  {
    NextWf(k, n, e);
    NextPantry(k, n, e);
    hide MonInv, PantryInv;
    var r := Next(k, e);
    forall b | 0 <= b < BUFFERS ensures |r.mons[b].slots| == n && MonInv(r.mons[b], r.threads, b) {
      NextMonitors(k, n, e, b);
    }
  }

  lemma StartMonitor(n: nat, b: int)
    requires n > 0 && 0 <= b < BUFFERS
    ensures MonInv(Start(n).mons[b], Start(n).threads, b)
  {
  }

  lemma StartPantry(n: nat)
    requires n > 0
    ensures Start(n).Wf() && PantryInv(Start(n))
  {
    assert Start(n).made == [];
  }

  lemma StartInv(n: nat)
    requires n > 0
    ensures KitchenInv(Start(n), n)
  {
    StartPantry(n);
    hide MonInv, PantryInv;
    forall b | 0 <= b < BUFFERS ensures |Start(n).mons[b].slots| == n && MonInv(Start(n).mons[b], Start(n).threads, b) {
      StartMonitor(n, b);
    }
  }

  ghost predicate Follows(k: Kitchen, e: Move, r: Kitchen) {
    k.Wf() && Enabled(k, e) && r == Next(k, e)
  }

  ghost predicate Run(run: seq<Kitchen>, moves: seq<Move>, n: nat) {
    && |run| == |moves| + 1 && run[0] == Start(n)
    && forall j :: 0 <= j < |moves| ==> Follows(run[j], moves[j], run[j + 1])
  }

  lemma RunStep(run: seq<Kitchen>, moves: seq<Move>, n: nat, j: nat)
    requires Run(run, moves, n) && j < |moves|
    ensures Follows(run[j], moves[j], run[j + 1])
  {
  }

  lemma {:induction false} RunInv(run: seq<Kitchen>, moves: seq<Move>, n: nat, j: nat)
    requires n > 0 && Run(run, moves, n) && j < |run|
    ensures KitchenInv(run[j], n)
  {
    hide KitchenInv, Next;
    if j == 0 {
      StartInv(n);
    } else {
      RunInv(run, moves, n, j - 1);
      RunStep(run, moves, n, j - 1);
      NextKeeps(run[j - 1], n, moves[j - 1]);
    }
  }

  // ---------------------------------------------------------------- what the runs guarantee

  /** The buffer as an atomic FIFO queue of capacity n: a step puts an item, takes the oldest, or leaves it alone. */
  ghost predicate QueueStep(m: Monitor, r: Monitor, t: Thread, u: Thread, produces: bool, n: nat)
    requires m.popped <= |m.pushed| && r.popped <= |r.pushed|
  {
    if t.phase.Act? then
      if produces then |Contents(m)| < n && Contents(r) == Contents(m) + [t.item]
      else Contents(m) != [] && Contents(m) == [u.item] + Contents(r)
    else Contents(r) == Contents(m)
  }

  /** Every step of every run is a step of the queue at the thread's own buffer and none at the others. */
  lemma RefinesQueue(run: seq<Kitchen>, moves: seq<Move>, n: nat, j: nat, b: int)
    requires n > 0 && Run(run, moves, n) && j < |moves| && 0 <= b < BUFFERS
    ensures run[j].Wf() && run[j + 1].Wf()
    ensures |Contents(run[j].mons[b])| == run[j].mons[b].count <= n
    ensures moves[j].Go? ==> 0 <= moves[j].i < THREADS
    ensures if moves[j].Go? && run[j].threads[moves[j].i].buf == b
      then QueueStep(run[j].mons[b], run[j + 1].mons[b], run[j].threads[moves[j].i], run[j + 1].threads[moves[j].i],
                     Producer(moves[j].i), n)
      else Contents(run[j + 1].mons[b]) == Contents(run[j].mons[b])
  {
    hide PantryInv;
    RunInv(run, moves, n, j);
    RunInv(run, moves, n, j + 1);
    RunStep(run, moves, n, j);
    assert MonInv(run[j].mons[b], run[j].threads, b) && |run[j].mons[b].slots| == n;
    match moves[j]
    case Go(i, w) =>
      assert At(i, run[j].threads[i].buf);
      if run[j].threads[i].buf == b { LocalQueue(run[j].mons[b], run[j].threads, b, i, n); }
    case Spurious(i) =>
  }

  lemma LocalQueue(m: Monitor, ts: seq<Thread>, b: int, i: int, n: nat)
    requires |ts| == THREADS && 0 <= b < BUFFERS && 0 <= i < THREADS && ts[i].buf == b
      && MonInv(m, ts, b) && |m.slots| == n
    ensures var (r, u) := Local(m, ts[i], i); r.popped <= |r.pushed| && QueueStep(m, r, ts[i], u, Producer(i), n)
  {
  }

  /** Items leave a buffer in the order 0, 1, 2, ... of their production. */
  lemma LeavesInOrder(run: seq<Kitchen>, moves: seq<Move>, n: nat, j: nat, b: int)
    requires n > 0 && Run(run, moves, n) && j < |run| && 0 <= b < BUFFERS
    ensures run[j].Wf() && forall x :: 0 <= x < |Contents(run[j].mons[b])| ==>
      Contents(run[j].mons[b])[x] == run[j].mons[b].popped + x
  {
    hide PantryInv;
    RunInv(run, moves, n, j);
    assert MonInv(run[j].mons[b], run[j].threads, b);
  }

  /** Every pieróg is made of a dough that was taken from the buffer, and no two of the same. */
  lemma EachDoughOnce(run: seq<Kitchen>, moves: seq<Move>, n: nat, j: nat, x: nat)
    requires n > 0 && Run(run, moves, n) && j < |run| && x < |run[j].made|
    ensures run[j].Wf() && 0 <= run[j].made[x].dough < run[j].mons[DOUGH].popped
    ensures forall y :: 0 <= y < |run[j].made| && y != x ==> run[j].made[y].dough != run[j].made[x].dough
  {
    RunInv(run, moves, n, j);
    DoughOnce(run[j].made, HandsOf(run[j].threads), run[j].mons[DOUGH].popped, x);
  }

  /** The pierogi of kind f use its fillings 0, 1, 2, ... in order; at most the last one taken is still in a hand. */
  lemma FillingsInOrder(run: seq<Kitchen>, moves: seq<Move>, n: nat, j: nat, f: int)
    requires n > 0 && Run(run, moves, n) && j < |run| && 1 <= f < BUFFERS
    ensures run[j].Wf()
    ensures var used := Fillings(run[j].made, f); Counted(used, |used|) && |used| <= run[j].mons[f].popped <= |used| + 1
  {
    RunInv(run, moves, n, j);
    var hands := HandsOf(run[j].threads);
    assert FillingOk(run[j].made, hands[f - 1], f - 1 + 1, TakenFrom(run[j].mons)[f - 1 + 1]);
  }

  /** No wake-up is lost: while a consumer sleeps, each item in the buffer has an awake consumer coming for it or its
      signal still to be sent; while the producer sleeps, all room is about to be signalled. */
  lemma NoLostWakeups(run: seq<Kitchen>, moves: seq<Move>, n: nat, j: nat, b: int)
    requires n > 0 && Run(run, moves, n) && j < |run| && 0 <= b < BUFFERS
    ensures run[j].Wf()
    ensures var m, ts := run[j].mons[b], run[j].threads;
      && (forall i :: Consumer(i) && ts[i].buf == b && ts[i].phase.Asleep? ==>
        m.count <= Comers(ts, b) + One(ts[b].phase.Signal?))
      && (ts[b].phase.Asleep? ==> n - m.count <= Signallers(ts, b))
  {
    hide PantryInv;
    RunInv(run, moves, n, j);
    assert MonInv(run[j].mons[b], run[j].threads, b);
  }

  /** If all threads sleep, the first consumer's buffer would have to be both full and empty. */
  lemma NotAllAsleep(k: Kitchen, n: nat)
    requires n > 0 && KitchenInv(k, n)
    ensures exists i :: 0 <= i < THREADS && !k.threads[i].phase.Asleep?
  {
    hide PantryInv;
    var b := k.threads[4].buf;
    assert At(4, b) && At(b, k.threads[b].buf);
    assert MonInv(k.mons[b], k.threads, b);
    assert !(k.threads[b].phase.Asleep? && k.threads[4].phase.Asleep? && k.threads[5].phase.Asleep?
      && k.threads[6].phase.Asleep?);
  }

  /** A thread that waits for a lock waits for one that can go on. */
  lemma LockHolder(k: Kitchen, n: nat, i: int) returns (h: int)
    requires KitchenInv(k, n) && 0 <= i < THREADS && !k.threads[i].phase.Asleep?
    ensures 0 <= h < THREADS && CanGo(k, h)
  {
    hide PantryInv;
    var b := k.threads[i].buf;
    assert At(i, b);
    assert MonInv(k.mons[b], k.threads, b);
    h := if CanGo(k, i) then i else k.mons[b].lock;
  }

  /** In every state of every run some thread can go on without being woken. */
  lemma NeverStuck(run: seq<Kitchen>, moves: seq<Move>, n: nat, j: nat) returns (i: int)
    requires n > 0 && Run(run, moves, n) && j < |run|
    ensures run[j].Wf() && 0 <= i < THREADS && CanGo(run[j], i)
  {
    RunInv(run, moves, n, j);
    NotAllAsleep(run[j], n);
    var x :| 0 <= x < THREADS && !run[j].threads[x].phase.Asleep?;
    i := LockHolder(run[j], n, x);
  }

  // ---------------------------------------------------------------- progress

  /** How far a thread is with its visit to a monitor; whoever sleeps or has been woken has to enter again. */
  function Stage(p: Phase): nat {
    match p
    case Work => 0
    case Enter => 1
    case Asleep => 1
    case Woken => 1
    case Check => 2
    case Act => 3
    case Signal => 4
    case Unlock => 5
  }

  /** Six steps for every item put, eleven for every pieróg, and the stage that has been reached. */
  function PutWork(items: int, p: Phase): int {
    6 * (items - One(Leaving(p))) + Stage(p)
  }

  function GetWork(pierogi: int, t: Thread): int {
    11 * pierogi + (if t.phase.Work? then 10 else Stage(t.phase) - 1 + (if t.buf == DOUGH then 5 else 0))
  }

  /** The work of thread i. */
  function WorkOf(k: Kitchen, i: int): int
    requires k.Wf() && 0 <= i < THREADS
  {
    if Producer(i) then PutWork(|k.mons[i].pushed|, k.threads[i].phase)
    else GetWork(|Fillings(k.made, Filling(i))|, k.threads[i])
  }

  /** Thread i finds its buffer full, or empty, and goes to sleep. */
  predicate FallsAsleep(k: Kitchen, e: Move)
    requires k.Wf()
  {
    && e.Go? && 0 <= e.i < THREADS && k.threads[e.i].phase.Check?
    && (var m := k.mons[k.threads[e.i].buf]; m.count == if Producer(e.i) then |m.slots| else 0)
  }

  /** k after the step of thread i, before the wake-up if it signals. */
  function Moved(k: Kitchen, i: int): (r: Kitchen)
    requires k.Wf() && 0 <= i < THREADS
    ensures |r.mons| == BUFFERS && |r.threads| == THREADS
  {
    var t := k.threads[i];
    var (m, u) := Local(k.mons[t.buf], t, i);
    Kitchen(k.mons[t.buf := m], k.threads[i := u],
            if !Producer(i) && t.phase.Work? then k.made + [Pierog(t.item, t.filling, Filling(i))] else k.made)
  }

  lemma PutStep(m: Monitor, t: Thread, i: int)
    requires Bounds(m) && Producer(i) && !t.phase.Asleep?
    ensures var (r, u) := Local(m, t, i);
      PutWork(|r.pushed|, u.phase) ==
        PutWork(|m.pushed|, t.phase) + (if t.phase.Check? && m.count == |m.slots| then -1 else 1)
  {
  }

  lemma GetStep(m: Monitor, t: Thread, i: int, pierogi: int)
    requires Bounds(m) && Consumer(i) && !t.phase.Asleep? && (t.phase.Work? ==> t.buf == DOUGH)
    requires t.buf == DOUGH || t.buf == Filling(i)
    ensures var (r, u) := Local(m, t, i);
      && r.pushed == m.pushed
      && GetWork(pierogi + One(t.phase.Work?), u) ==
           GetWork(pierogi, t) + (if t.phase.Check? && m.count == 0 then -1 else 1)
  {
  }

  lemma LocalWorks(k: Kitchen, i: int, j: int)
    requires k.Wf() && 0 <= j < THREADS && 0 <= i < THREADS && Moved(k, i).Wf() && !k.threads[i].phase.Asleep?
    requires k.threads[i].phase.Work? && !Producer(i) ==> k.threads[i].buf == DOUGH
    ensures WorkOf(Moved(k, i), j) ==
      WorkOf(k, j) + (if i != j then 0 else if FallsAsleep(k, Go(i, NOBODY)) then -1 else 1)
  {
    var t := k.threads[i];
    assert At(i, t.buf);
    hide Local, PutWork, GetWork, Fillings;
    if Producer(i) {
      PutStep(k.mons[i], t, i);
    } else {
      GetStep(k.mons[t.buf], t, i, |Fillings(k.made, Filling(j))|);
      if t.phase.Work? { FillingsAppend(k.made, Pierog(t.item, t.filling, Filling(i)), Filling(j)); }
    }
  }

  /** Being woken is no progress. */
  lemma WakeWorks(k: Kitchen, r: Kitchen, w: int, j: int)
    requires k.Wf() && r.Wf() && r == k.(threads := Wake(k.threads, w)) && 0 <= j < THREADS
    requires 0 <= w < THREADS ==> k.threads[w].phase.Asleep?
    ensures WorkOf(r, j) == WorkOf(k, j)
  {
    hide Fillings;
  }

  /** Each step advances its thread by one, unless it has to sleep, which sets it back by one; nobody else is moved. */
  lemma GoWorks(k: Kitchen, e: Move, j: int)
    requires k.Wf() && Enabled(k, e) && Next(k, e).Wf() && 0 <= j < THREADS
    requires e.Go? && k.threads[e.i].phase.Work? && !Producer(e.i) ==> k.threads[e.i].buf == DOUGH
    ensures WorkOf(Next(k, e), j) ==
      WorkOf(k, j) + (if e.Spurious? || e.i != j then 0 else if FallsAsleep(k, e) then -1 else 1)
  {
    hide WorkOf;
    match e
    case Spurious(i) => WakeWorks(k, Next(k, e), i, j);
    case Go(i, w) =>
      var s := Moved(k, i);
      assert s.Wf() by { SameShape(k, e); }
      LocalWorks(k, i, j);
      if k.threads[i].phase.Signal? { WakeWorks(s, Next(k, e), w, j); }
  }

  lemma SameShape(k: Kitchen, e: Move)
    requires k.Wf() && Enabled(k, e) && e.Go? && Next(k, e).Wf()
    ensures Moved(k, e.i).Wf()
  {
    var s, r := Moved(k, e.i), Next(k, e);
    assert s.mons == r.mons;
    forall i | 0 <= i < THREADS ensures At(i, s.threads[i].buf) {
      assert At(i, r.threads[i].buf) && r.threads[i].buf == s.threads[i].buf;
    }
  }

  /** The steps of thread i among the first n moves, less twice the times it fell asleep. */
  function Advances(run: seq<Kitchen>, moves: seq<Move>, i: int, n: nat): int
    requires n <= |moves| <= |run| && forall j :: 0 <= j < |run| ==> run[j].Wf()
  {
    if n == 0 then 0
    else
      var e := moves[n - 1];
      Advances(run, moves, i, n - 1)
        + (if e.Spurious? || e.i != i then 0 else if FallsAsleep(run[n - 1], e) then -1 else 1)
  }

  lemma StartWork(n: nat, i: int)
    requires n > 0 && 0 <= i < THREADS
    ensures Start(n).Wf() && WorkOf(Start(n), i) == 0
  {
  }

  /** In every run the work a thread has done is what its steps come to: whoever does not have to sleep puts an item
      with every six steps, or makes a pieróg with every eleven. */
  lemma {:induction false} WorkDone(run: seq<Kitchen>, moves: seq<Move>, n: nat, j: nat, i: int)
    requires n > 0 && Run(run, moves, n) && j <= |moves| && 0 <= i < THREADS
    requires forall x :: 0 <= x < |run| ==> run[x].Wf()
    ensures |run| == |moves| + 1 && WorkOf(run[j], i) == Advances(run, moves, i, j)
  {
    hide Run, Follows, KitchenInv, Next, WorkOf, FallsAsleep;
    RunStart(run, moves, n);
    if j == 0 {
      StartWork(n, i);
    } else {
      WorkDone(run, moves, n, j - 1, i);
      RunInv(run, moves, n, j - 1);
      RunWorks(run, moves, n, j - 1, i);
    }
  }

  lemma RunStart(run: seq<Kitchen>, moves: seq<Move>, n: nat)
    requires Run(run, moves, n)
    ensures |run| == |moves| + 1 && run[0] == Start(n)
  {
  }

  lemma RunWorks(run: seq<Kitchen>, moves: seq<Move>, n: nat, j: nat, i: int)
    requires Run(run, moves, n) && j < |moves| && KitchenInv(run[j], n) && 0 <= i < THREADS
    ensures |run| == |moves| + 1 && run[j].Wf() && run[j + 1].Wf()
    ensures WorkOf(run[j + 1], i) == WorkOf(run[j], i) +
      (if moves[j].Spurious? || moves[j].i != i then 0 else if FallsAsleep(run[j], moves[j]) then -1 else 1)
  {
    RunStep(run, moves, n, j);
    WorkAtDough(run[j], n);
    NextWf(run[j], n, moves[j]);
    hide KitchenInv, Next, WorkOf, FallsAsleep, Run;
    GoWorks(run[j], moves[j], i);
  }

  lemma WorkAtDough(k: Kitchen, n: nat)
    requires KitchenInv(k, n)
    ensures forall i :: Consumer(i) && k.threads[i].phase.Work? ==> k.threads[i].buf == DOUGH
  {
    hide MonInv, Pantry;
  }

  // ---------------------------------------------------------------- the monitor's own data

  /** BufferMonitor, as seen by a thread that holds the lock and has found its condition true. */
  class BufferMonitor {
    const cells: array<int>
    const capacity: nat
    var count: int
    var inp: nat
    var outp: nat
    ghost var pushed: seq<int>
    ghost var popped: nat

    ghost predicate Valid()
      reads this, cells
    {
      && capacity == cells.Length && Holds(cells[..], pushed, popped) && count == |pushed| - popped
      && inp == Slot(|pushed|, capacity) && outp == Slot(popped, capacity)
    }

    ghost function Items(): seq<int>
      reads this
      requires popped <= |pushed|
    {
      pushed[popped..]
    }

    /** monitor_init */
    constructor (size: nat)
      requires size > 0
      ensures Valid() && capacity == size && Items() == [] && fresh(cells)
    {
      cells := new int[size];
      capacity, count := size, 0;
      inp, outp := 0, 0;
      pushed, popped := [], 0;
    }

    /** The test of the while loop in monitor_put, and the body behind it; false means the thread has to wait. */
    method TryPut(item: int) returns (ok: bool)
      requires Valid()
      modifies this, cells
      ensures Valid() && ok == (|old(Items())| < capacity)
        && Items() == if ok then old(Items()) + [item] else old(Items())
    {
      if count == capacity { return false; }
      HoldsStore(cells[..], pushed, popped, item);
      SlotNext(|pushed|, capacity);
      cells[inp] := item;
      inp := (inp + 1) % capacity;
      count := count + 1;
      HoldsAppend(cells[..], pushed, popped, item);
      pushed := pushed + [item];
      ok := true;
    }

    /** The same for monitor_get. */
    method TryGet() returns (ok: bool, item: int)
      requires Valid()
      modifies this
      ensures Valid() && ok == (old(Items()) != [])
        && if ok then [item] + Items() == old(Items()) else Items() == old(Items())
    {
      if count == 0 { return false, 0; }
      SlotNext(popped, capacity);
      item := cells[outp];
      outp := (outp + 1) % capacity;
      count := count - 1;
      popped := popped + 1;
      ok := true;
    }
  }
}
