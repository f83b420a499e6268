/**
 Every interleaving of the semaphore kitchen keeps its tokens, mutual exclusion and item order, and never gets stuck.
 */
module SemaphoreProofs {
  import opened Pierogi
  import opened Rings
  import opened Semaphores

  /** The semaphore the thread is about to take, if any, is positive. */
  predicate Ready(r: Ring, t: Thread, produces: bool) {
    match t.phase
    case Wait => (if produces then r.empty else r.full) > 0
    case Lock => r.mutex > 0
    case _ => true
  }

  // ---------------------------------------------------------------- steps of a producer

  lemma ProduceTokens(r: Ring, ts: seq<Thread>, b: int)
    requires |ts| == THREADS && Producer(b) && Bounds(r) && Tokens(r, ts, b) && Ready(r, ts[b], true)
    ensures Tokens(Produce(r, ts[b]).0, ts[b := Produce(r, ts[b]).1], b)
  {
  }

  lemma ProduceSlots(r: Ring, p: Thread)
    requires Bounds(r) && Slots(r, p) && (Taking(p.phase) ==> |r.pushed| < r.popped + |r.slots|)
    ensures Slots(Produce(r, p).0, Produce(r, p).1) && Bounds(Produce(r, p).0)
  {
    hide Slot, Holds;
    match p.phase
    case Touch => HoldsStore(r.slots, r.pushed, r.popped, p.item);
    case Move =>
      HoldsAppend(r.slots, r.pushed, r.popped, p.item);
      SlotNext(|r.pushed|, |r.slots|);
    case _ =>
  }

  lemma ProduceKeeps(r: Ring, ts: seq<Thread>, b: int)
    requires |ts| == THREADS && Producer(b) && RingInv(r, ts, b) && Ready(r, ts[b], true)
    ensures RingInv(Produce(r, ts[b]).0, ts[b := Produce(r, ts[b]).1], b)
    ensures |Produce(r, ts[b]).0.slots| == |r.slots| && Produce(r, ts[b]).0.popped == r.popped
  {
    ProduceTokens(r, ts, b);
    ProduceSlots(r, ts[b]);
  }

  // ---------------------------------------------------------------- steps of a consumer

  predicate Consumer(i: int) { BUFFERS <= i < THREADS }

  lemma CountsUpdate(ts: seq<Thread>, b: int, i: int, u: Thread)
    requires |ts| == THREADS && Consumer(i)
    ensures Takers(ts[i := u], b) ==
      Takers(ts, b) - One(ts[i].buf == b && Taking(ts[i].phase)) + One(u.buf == b && Taking(u.phase))
    ensures Givers(ts[i := u], b) ==
      Givers(ts, b) - One(ts[i].buf == b && Giving(ts[i].phase)) + One(u.buf == b && Giving(u.phase))
    ensures Insiders(ts[i := u], b) ==
      Insiders(ts, b) - One(ts[i].buf == b && Inside(ts[i].phase)) + One(u.buf == b && Inside(u.phase))
  {
    if i == 4 {} else if i == 5 {} else {}
  }

  lemma ConsumeTokens(r: Ring, ts: seq<Thread>, b: int, i: int)
    requires |ts| == THREADS && 0 <= b < BUFFERS && Consumer(i) && ts[i].buf == b && At(i, b)
    requires Bounds(r) && Tokens(r, ts, b) && Ready(r, ts[i], false)
    ensures Tokens(Consume(r, ts[i], Filling(i)).0, ts[i := Consume(r, ts[i], Filling(i)).1], b)
  {
    hide Takers, Givers, Insiders;
    CountsUpdate(ts, b, i, Consume(r, ts[i], Filling(i)).1);
  }

  lemma ConsumeSlots(r: Ring, p: Thread, t: Thread, f: int)
    requires Bounds(r) && Slots(r, p) && (Taking(t.phase) ==> r.popped < |r.pushed|)
    ensures Slots(Consume(r, t, f).0, p) && Bounds(Consume(r, t, f).0)
    ensures t.phase.Touch? ==> Consume(r, t, f).1.item == r.popped
  {
    SlotNext(r.popped, |r.slots|);
  }

  /** A consumer inside the buffer is the only one: nobody else has read the slot it takes. */
  lemma ConsumeHands(r: Ring, ts: seq<Thread>, b: int, i: int)
    requires |ts| == THREADS && 0 <= b < BUFFERS && Consumer(i) && ts[i].buf == b && RingInv(r, ts, b)
    ensures Hands(Consume(r, ts[i], Filling(i)).0, ts[i := Consume(r, ts[i], Filling(i)).1], b)
  {
    var (q, u) := Consume(r, ts[i], Filling(i));
    ConsumeSlots(r, ts[b], ts[i], Filling(i));
    assert ts[i].phase.Move? ==> forall j :: Consumer(j) && j != i && ts[j].buf == b ==> !Inside(ts[j].phase);
  }

  lemma ConsumeKeeps(r: Ring, ts: seq<Thread>, b: int, i: int)
    requires |ts| == THREADS && 0 <= b < BUFFERS && Consumer(i) && ts[i].buf == b && At(i, b)
    requires RingInv(r, ts, b) && Ready(r, ts[i], false)
    ensures RingInv(Consume(r, ts[i], Filling(i)).0, ts[i := Consume(r, ts[i], Filling(i)).1], b)
    ensures |Consume(r, ts[i], Filling(i)).0.slots| == |r.slots|
  {
    ConsumeTokens(r, ts, b, i);
    ConsumeSlots(r, ts[b], ts[i], Filling(i));
    ConsumeHands(r, ts, b, i);
  }

  // ---------------------------------------------------------------- a step changes one buffer

  lemma OtherRing(r: Ring, ts: seq<Thread>, b: int, i: int, u: Thread)
    requires |ts| == THREADS && 0 <= b < BUFFERS && 0 <= i < THREADS && i != b && RingInv(r, ts, b)
    requires ts[i].buf != b && (u.buf != b || u.phase.Wait?)
    ensures RingInv(r, ts[i := u], b)
  {
  }

  lemma StepRings(k: Kitchen, n: nat, i: int, b: int)
    requires KitchenInv(k, n) && 0 <= i < THREADS && CanStep(k, i) && 0 <= b < BUFFERS
    ensures |Step(k, i).rings[b].slots| == n && RingInv(Step(k, i).rings[b], Step(k, i).threads, b)
  {
    hide Tokens, Slots, Hands, PantryInv;
    var t := k.threads[i];
    if Producer(i) {
      if b == i {
        ProduceKeeps(k.rings[b], k.threads, b);
      } else {
        OtherRing(k.rings[b], k.threads, b, i, Produce(k.rings[i], t).1);
      }
    } else {
      if b == t.buf {
        ConsumeKeeps(k.rings[b], k.threads, b, i);
      } else {
        OtherRing(k.rings[b], k.threads, b, i, Consume(k.rings[t.buf], t, Filling(i)).1);
      }
    }
  }

  lemma StepWf(k: Kitchen, n: nat, i: int)
    requires KitchenInv(k, n) && 0 <= i < THREADS && CanStep(k, i)
    ensures Step(k, i).Wf()
  {
    hide PantryInv;
    forall b | 0 <= b < BUFFERS ensures Bounds(Step(k, i).rings[b]) {
      StepRings(k, n, i, b);
    }
    var r := Step(k, i);
    forall j | 0 <= j < THREADS ensures At(j, r.threads[j].buf) {
      assert At(j, k.threads[j].buf);
    }
  }

  // ---------------------------------------------------------------- the ingredients

  lemma HandsUpdate(ts: seq<Thread>, i: int, u: Thread)
    requires |ts| == THREADS && 0 <= i < THREADS
    ensures HandsOf(ts[i := u]) == if Producer(i) then HandsOf(ts) else HandsOf(ts)[i - 4 := HandOf(u, Filling(i))]
    ensures !Producer(i) ==> HandsOf(ts)[i - 4] == HandOf(ts[i], Filling(i))
  {
    if i == 4 {} else if i == 5 {} else if i == 6 {}
  }

  lemma TakenUpdate(rs: seq<Ring>, b: int, r: Ring)
    requires |rs| == BUFFERS && 0 <= b < BUFFERS
    ensures TakenFrom(rs[b := r]) == TakenFrom(rs)[b := r.popped] && TakenFrom(rs)[b] == rs[b].popped
  {
    if b == 0 {} else if b == 1 {} else if b == 2 {} else {}
  }

  /** What one step of consumer i does to its hand. */
  lemma ConsumeHand(k: Kitchen, i: int)
    requires k.Wf() && Consumer(i) && (k.threads[i].phase.Work? ==> k.threads[i].buf == DOUGH)
    requires k.threads[i].phase.Move? ==> k.threads[i].item == k.rings[k.threads[i].buf].popped
    ensures var t, u := k.threads[i], Step(k, i).threads[i]; u.phase.Work? ==> u.buf == DOUGH
    ensures HandStep(i - 4, HandOf(k.threads[i], Filling(i)), HandOf(Step(k, i).threads[i], Filling(i)),
                     TakenFrom(k.rings), TakenFrom(Step(k, i).rings), k.made, Step(k, i).made)
  {
    var t := k.threads[i];
    assert At(i, t.buf);
    TakenUpdate(k.rings, t.buf, Consume(k.rings[t.buf], t, Filling(i)).0);
    hide TakenFrom;
    if !t.phase.Move? { assert TakenFrom(k.rings)[t.buf := k.rings[t.buf].popped] == TakenFrom(k.rings); }
  }

  lemma ConsumePantry(k: Kitchen, n: nat, i: int)
    requires KitchenInv(k, n) && Consumer(i)
    ensures var r := Step(k, i); |r.threads| == THREADS && |r.rings| == BUFFERS
    ensures var r := Step(k, i); Pantry(r.made, HandsOf(r.threads), TakenFrom(r.rings))
  {
    var t := k.threads[i];
    assert At(i, t.buf) && RingInv(k.rings[t.buf], k.threads, t.buf);
    hide Tokens, Slots, RingInv, Pantry, HandOf, HandStep, Consume;
    ConsumeHand(k, i);
    HandsUpdate(k.threads, i, Step(k, i).threads[i]);
    HandsShape(k);
    hide HandsOf, TakenFrom;
    HandSteps(k.made, Step(k, i).made, HandsOf(k.threads), i - 4, HandOf(Step(k, i).threads[i], Filling(i)),
              TakenFrom(k.rings), TakenFrom(Step(k, i).rings));
  }

  lemma HandsShape(k: Kitchen)
    requires k.Wf()
    ensures |HandsOf(k.threads)| == CONSUMERS && |TakenFrom(k.rings)| == KINDS
      && TakenFrom(k.rings)[0] == k.rings[0].popped
  {
  }

  lemma ProducePantry(k: Kitchen, i: int)
    requires k.Wf() && PantryInv(k) && Producer(i) && k.threads[i].buf == i && Step(k, i).Wf()
    ensures PantryInv(Step(k, i))
  {
    hide Pantry, HandsOf, TakenFrom;
    var (q, u) := Produce(k.rings[i], k.threads[i]);
    HandsUpdate(k.threads, i, u);
    TakenUpdate(k.rings, i, q);
    HandsShape(k);
    assert TakenFrom(k.rings)[i := q.popped] == TakenFrom(k.rings);
  }

  lemma StepPantry(k: Kitchen, n: nat, i: int)
    requires KitchenInv(k, n) && 0 <= i < THREADS && CanStep(k, i) && Step(k, i).Wf()
    ensures PantryInv(Step(k, i))
  {
    var t := k.threads[i];
    assert At(i, t.buf) && RingInv(k.rings[t.buf], k.threads, t.buf);
    assert Consumer(i) && t.phase.Move? ==> t.item == k.rings[t.buf].popped;
    hide Tokens, Slots, Hands, Pantry, HandsOf, TakenFrom;
    if Producer(i) {
      ProducePantry(k, i);
    } else {
      ConsumePantry(k, n, i);
      ConsumeHand(k, i);
    }
  }

  lemma StepKeeps(k: Kitchen, n: nat, i: int)
    requires KitchenInv(k, n) && 0 <= i < THREADS && CanStep(k, i)
    ensures KitchenInv(Step(k, i), n)
  {
    StepWf(k, n, i);
    forall b | 0 <= b < BUFFERS
      ensures |Step(k, i).rings[b].slots| == n && RingInv(Step(k, i).rings[b], Step(k, i).threads, b) {
      StepRings(k, n, i, b);
    }
    StepPantry(k, n, i);
  }

  lemma StartRing(n: nat, b: int)
    requires n > 0 && 0 <= b < BUFFERS
    ensures |Start(n).rings[b].slots| == n && RingInv(Start(n).rings[b], Start(n).threads, b)
  {
  }

  lemma StartPantry(n: nat)
    requires n > 0
    ensures Start(n).Wf() && PantryInv(Start(n))
  {
    assert Start(n).made == [];
  }

  lemma StartInv(n: nat)
    requires n > 0
    ensures KitchenInv(Start(n), n)
  {
    StartPantry(n);
    hide RingInv, PantryInv;
    forall b | 0 <= b < BUFFERS
      ensures |Start(n).rings[b].slots| == n && RingInv(Start(n).rings[b], Start(n).threads, b) {
      StartRing(n, b);
    }
  }

  // ---------------------------------------------------------------- whole runs

  ghost predicate Run(run: seq<Kitchen>, who: seq<int>, n: nat) {
    && |run| == |who| + 1 && run[0] == Start(n)
    && forall j :: 0 <= j < |who| ==> Follows(run[j], who[j], run[j + 1])
  }

  ghost predicate Follows(k: Kitchen, i: int, r: Kitchen) {
    k.Wf() && 0 <= i < THREADS && CanStep(k, i) && r == Step(k, i)
  }

  /** The invariant holds in every state of every interleaving. */
  lemma {:induction false} RunInv(run: seq<Kitchen>, who: seq<int>, n: nat, j: nat)
    requires n > 0 && Run(run, who, n) && j < |run|
    ensures KitchenInv(run[j], n)
  {
    hide KitchenInv, Step;
    if j == 0 {
      StartInv(n);
    } else {
      RunInv(run, who, n, j - 1);
      assert Follows(run[j - 1], who[j - 1], run[j - 1 + 1]);
      StepKeeps(run[j - 1], n, who[j - 1]);
    }
  }

  /** At every buffer the tokens in full, in empty and in the hands of threads add up to N. */
  lemma TokensConserved(run: seq<Kitchen>, who: seq<int>, n: nat, j: nat, b: int)
    requires n > 0 && Run(run, who, n) && j < |run| && 0 <= b < BUFFERS
    ensures |run[j].rings| == BUFFERS
    ensures var r, ts := run[j].rings[b], run[j].threads;
      |ts| == THREADS && r.full + r.empty + One(Taking(ts[b].phase)) + One(Giving(ts[b].phase)) + Takers(ts, b)
        + Givers(ts, b) == n
  {
    hide PantryInv;
    RunInv(run, who, n, j);
    assert RingInv(run[j].rings[b], run[j].threads, b);
  }

  /** Two threads are never inside the same buffer. */
  lemma MutualExclusion(run: seq<Kitchen>, who: seq<int>, n: nat, j: nat, x: int, y: int)
    requires n > 0 && Run(run, who, n) && j < |run| && 0 <= x < y < THREADS
    ensures |run[j].threads| == THREADS
    ensures var t, u := run[j].threads[x], run[j].threads[y]; !(t.buf == u.buf && Inside(t.phase) && Inside(u.phase))
  {
    hide PantryInv;
    RunInv(run, who, n, j);
    var k := run[j];
    assert At(x, k.threads[x].buf) && At(y, k.threads[y].buf);
    var b := k.threads[x].buf;
    assert RingInv(k.rings[b], k.threads, b);
  }

  lemma WritesFree(r: Ring, ts: seq<Thread>, b: int, n: nat)
    requires |ts| == THREADS && 0 <= b < BUFFERS && RingInv(r, ts, b) && |r.slots| == n && ts[b].phase.Touch?
    ensures ts[b].item == |r.pushed| && forall m :: r.popped <= m < |r.pushed| ==> Slot(m, n) != r.inp
  {
    forall m | r.popped <= m < |r.pushed| ensures Slot(m, n) != r.inp { SlotsDiffer(m, |r.pushed|, n); }
  }

  lemma ReadsNext(r: Ring, ts: seq<Thread>, b: int, i: int)
    requires |ts| == THREADS && 0 <= b < BUFFERS && RingInv(r, ts, b)
    requires Consumer(i) && ts[i].buf == b && ts[i].phase.Touch?
    ensures 0 <= r.outp < |r.slots| && r.popped < |r.pushed| && r.slots[r.outp] == r.popped
  {
  }

  /** A slot is written only while it holds no item, and read only while it holds the next one. */
  lemma SlotDiscipline(run: seq<Kitchen>, who: seq<int>, n: nat, j: nat, i: int)
    requires n > 0 && Run(run, who, n) && j < |run| && 0 <= i < THREADS
    ensures run[j].Wf()
    ensures var t := run[j].threads[i]; var r := run[j].rings[t.buf];
      t.phase.Touch? ==>
        if Producer(i) then t.item == |r.pushed| && forall m :: r.popped <= m < |r.pushed| ==> Slot(m, n) != r.inp
        else r.popped < |r.pushed| && r.slots[r.outp] == r.popped
  {
    hide PantryInv;
    RunInv(run, who, n, j);
    var k := run[j];
    var t := k.threads[i];
    assert At(i, t.buf);
    var r := k.rings[t.buf];
    assert RingInv(r, k.threads, t.buf);
    hide Slot, RingInv;
    if t.phase.Touch? {
      if Producer(i) { WritesFree(r, k.threads, t.buf, n); } else { ReadsNext(r, k.threads, t.buf, i); }
    }
  }

  /** The j-th item taken out of a buffer is the j-th put in: ids leave in order 0, 1, 2, ... */
  lemma LeavesInOrder(run: seq<Kitchen>, who: seq<int>, n: nat, j: nat, i: int)
    requires n > 0 && Run(run, who, n) && j < |run| && Consumer(i)
    ensures run[j].Wf()
    ensures var t := run[j].threads[i]; t.phase.Move? ==> t.item == run[j].rings[t.buf].popped
  {
    hide PantryInv;
    RunInv(run, who, n, j);
    var t := run[j].threads[i];
    assert At(i, t.buf);
    assert RingInv(run[j].rings[t.buf], run[j].threads, t.buf);
  }

  /** Every pieróg is made of a dough that was taken from the buffer, and no two of the same. */
  lemma EachDoughOnce(run: seq<Kitchen>, who: seq<int>, n: nat, j: nat, x: nat)
    requires n > 0 && Run(run, who, n) && j < |run| && x < |run[j].made|
    ensures run[j].Wf() && 0 <= run[j].made[x].dough < run[j].rings[DOUGH].popped
    ensures forall y :: 0 <= y < |run[j].made| && y != x ==> run[j].made[y].dough != run[j].made[x].dough
  {
    RunInv(run, who, n, j);
    DoughOnce(run[j].made, HandsOf(run[j].threads), run[j].rings[DOUGH].popped, x);
  }

  /** The pierogi of kind f use its fillings 0, 1, 2, ... in order; at most the last one taken is still in a hand. */
  lemma FillingsInOrder(run: seq<Kitchen>, who: seq<int>, n: nat, j: nat, f: int)
    requires n > 0 && Run(run, who, n) && j < |run| && 1 <= f < BUFFERS
    ensures run[j].Wf()
    ensures var used := Fillings(run[j].made, f);
      Counted(used, |used|) && |used| <= run[j].rings[f].popped <= |used| + 1
  {
    RunInv(run, who, n, j);
    var hands := HandsOf(run[j].threads);
    assert FillingOk(run[j].made, hands[f - 1], f - 1 + 1, TakenFrom(run[j].rings)[f - 1 + 1]);
  }

  // ---------------------------------------------------------------- progress

  /** How far a producer is with its item, in steps. */
  function ProducerStage(p: Phase): nat {
    match p
    case Work => 0
    case Wait => 1
    case Lock => 2
    case Touch => 3
    case Move => 4
    case Unlock => 5
    case Post => 6
  }

  /** How far a consumer is with its pieróg: six steps at the filling, six at the dough, and the making. */
  function ConsumerStage(t: Thread): int {
    if t.phase.Work? then 12 else ProducerStage(t.phase) - 1 + (if t.buf == DOUGH then 6 else 0)
  }

  /** The steps thread i has taken: seven for every item put into the buffer, thirteen for every pieróg. */
  function StepsDone(k: Kitchen, i: int): int
    requires k.Wf() && 0 <= i < THREADS
  {
    var t := k.threads[i];
    if Producer(i) then 7 * (|k.rings[i].pushed| - One(Giving(t.phase))) + ProducerStage(t.phase)
    else 13 * |Fillings(k.made, Filling(i))| + ConsumerStage(t)
  }

  /** No step is idle: each is one of the seven or thirteen, and it moves its own thread only. */
  lemma StepWorks(k: Kitchen, i: int, j: int)
    requires k.Wf() && 0 <= i < THREADS && 0 <= j < THREADS && Step(k, i).Wf()
    requires k.threads[i].phase.Work? && !Producer(i) ==> k.threads[i].buf == DOUGH
    ensures StepsDone(Step(k, i), j) == StepsDone(k, j) + (if j == i then 1 else 0)
  {
    var t := k.threads[i];
    assert At(i, t.buf) && At(j, k.threads[j].buf);
    if !Producer(i) && t.phase.Work? { FillingsAppend(k.made, Pierog(t.item, t.filling, Filling(i)), Filling(j)); }
    hide Fillings;
  }

  function StepsOf(who: seq<int>, i: int, n: nat): nat
    requires n <= |who|
  {
    if n == 0 then 0 else StepsOf(who, i, n - 1) + (if who[n - 1] == i then 1 else 0)
  }

  lemma StartDone(n: nat, i: int)
    requires n > 0 && 0 <= i < THREADS
    ensures Start(n).Wf() && StepsDone(Start(n), i) == 0
  {
  }

  /** In every run the work a thread has done is the number of its steps: every seven steps of a producer put an item
      into its buffer, and every thirteen of a consumer make a pieróg. */
  lemma {:induction false} WorkDone(run: seq<Kitchen>, who: seq<int>, n: nat, j: nat, i: int)
    requires n > 0 && Run(run, who, n) && j < |run| && 0 <= i < THREADS
    ensures run[j].Wf() && j <= |who| && StepsDone(run[j], i) == StepsOf(who, i, j)
  {
    hide Run, Follows, KitchenInv, Step, StepsDone;
    RunStart(run, who, n);
    if j == 0 {
      StartDone(n, i);
    } else {
      WorkDone(run, who, n, j - 1, i);
      RunInv(run, who, n, j - 1);
      RunWorks(run, who, n, j - 1, i);
    }
  }

  lemma RunStart(run: seq<Kitchen>, who: seq<int>, n: nat)
    requires Run(run, who, n)
    ensures |run| == |who| + 1 && run[0] == Start(n)
  {
  }

  lemma RunWorks(run: seq<Kitchen>, who: seq<int>, n: nat, j: nat, i: int)
    requires Run(run, who, n) && j < |who| && KitchenInv(run[j], n) && 0 <= i < THREADS
    ensures |run| == |who| + 1 && run[j].Wf() && run[j + 1].Wf()
    ensures StepsDone(run[j + 1], i) == StepsDone(run[j], i) + (if who[j] == i then 1 else 0)
  {
    assert Follows(run[j], who[j], run[j + 1]);
    WorkAtDough(run[j], n, who[j]);
    StepWf(run[j], n, who[j]);
    hide KitchenInv, Step, StepsDone;
    StepWorks(run[j], who[j], i);
  }

  lemma WorkAtDough(k: Kitchen, n: nat, i: int)
    requires KitchenInv(k, n) && 0 <= i < THREADS
    ensures k.threads[i].phase.Work? && !Producer(i) ==> k.threads[i].buf == DOUGH
  {
    hide RingInv, Pantry;
  }

  // ---------------------------------------------------------------- deadlock

  /** Whoever waits for a mutex waits for a thread that can go on. */
  lemma MutexHolder(k: Kitchen, n: nat, i: int) returns (h: int)
    requires KitchenInv(k, n) && 0 <= i < THREADS && k.threads[i].phase.Lock? && !CanStep(k, i)
    ensures 0 <= h < THREADS && CanStep(k, h)
  {
    hide PantryInv;
    var b := k.threads[i].buf;
    assert At(i, b);
    assert RingInv(k.rings[b], k.threads, b);
    h := if Inside(k.threads[b].phase) then b
         else if k.threads[4].buf == b && Inside(k.threads[4].phase) then 4
         else if k.threads[5].buf == b && Inside(k.threads[5].phase) then 5 else 6;
    assert At(b, k.threads[b].buf);
  }

  /** If every thread waits at its first semaphore, all tokens are in the semaphores, and one of them is wanted. */
  lemma AllWaiting(k: Kitchen, n: nat) returns (i: int)
    requires n > 0 && KitchenInv(k, n) && forall j :: 0 <= j < THREADS ==> k.threads[j].phase.Wait?
    ensures 0 <= i < THREADS && CanStep(k, i)
  {
    hide PantryInv;
    var b := k.threads[4].buf;
    assert At(4, b) && At(b, k.threads[b].buf);
    assert RingInv(k.rings[b], k.threads, b);
    assert k.rings[b].full + k.rings[b].empty == n;
    i := if k.rings[b].full > 0 then 4 else b;
  }

  /** In every state of every interleaving some thread can step. */
  lemma NeverStuck(run: seq<Kitchen>, who: seq<int>, n: nat, j: nat) returns (i: int)
    requires n > 0 && Run(run, who, n) && j < |run|
    ensures run[j].Wf() && 0 <= i < THREADS && CanStep(run[j], i)
  {
    RunInv(run, who, n, j);
    var k := run[j];
    if x :| 0 <= x < THREADS && !k.threads[x].phase.Wait? {
      if CanStep(k, x) { i := x; } else { i := MutexHolder(k, n, x); }
    } else {
      i := AllWaiting(k, n);
    }
  }
}
