/**
 The kernel's scheduling and message state as a value, and its primitive operations.

 Process number n is identified with table slot n + NR_TASKS, so slots are 0 .. |p|-1; ANY keeps its
 value, which lies outside the table. An intrusive list is represented by the sequence of its slots.
 ProcTable.dfy holds the pointer form and refines the operations of this module.
 */
module KernelState {
  import opened Lists

  const ANY: int := 0x7ace
  const RR_QUANTUM: int := 3
  const MAX_WAIT_TICKS: int := 1000
  const AGING_TICK: int := 5

  // The ready queues: rdy_head[TASK_Q], rdy_head[SERVER_Q], rdy_head[USER_Q], g1_queue, g2_queue, g3_queue.
  const TASK_Q: int := 0
  const SERVER_Q: int := 1
  const USER_Q: int := 2
  const G1_Q: int := 3
  const G2_Q: int := 4
  const G3_Q: int := 5
  const QUEUES: int := 6

  datatype Priority = Unused | Task | Server | User | Idle

  /** The fields of `struct proc` that decide who may run and who may talk to whom. */
  datatype Proc = Proc(
    priority: Priority,
    noMap: bool, sending: bool, receiving: bool, pending: bool, sigPending: bool, stopped: bool,  // p_flags
    getfrom: int, sendto: int,
    intBlocked: bool,
    pendingSet: set<int>, pendcount: int,
    group: int, estimate: int)
  {
    /** p_flags == 0 */
    predicate Runnable() {
      !noMap && !sending && !receiving && !pending && !sigPending && !stopped
    }

    predicate Live() {
      priority == Task || priority == Server || priority == User
    }

    /** The queue that the priority and the scheduling group select. */
    function Queue(): (k: int)
      ensures 0 <= k < QUEUES
    {
      if priority == Task then TASK_Q
      else if priority == Server then SERVER_Q
      else if priority == User && group == 1 then G1_Q
      else if priority == User && group == 2 then G2_Q
      else if priority == User && group == 3 then G3_Q
      else USER_Q
    }
  }

  /**
   told[i] (signals of i handed to the memory manager and not yet ended) and picks (the group-2
   selections so far) are history: nothing the kernel does depends on them.
   */
  datatype State = State(
    nt: int,
    p: seq<Proc>,
    q: seq<seq<int>>,
    cq: seq<seq<int>>,
    cur: int, bill: int,
    wait: seq<int>, rr: seq<int>, aging: int,
    sigProcs: int, told: seq<int>,
    held: seq<int>,
    picks: seq<int>)
  {
    function Mm(): int { nt }
    function Fs(): int { nt + 1 }
    function Hardware(): int { nt - 1 }
    function IdleSlot(): int { nt - 6 }

    predicate Slot(i: int) { 0 <= i < |p| }

    /** Shape of the tables; none of it ever changes. */
    predicate Wf() {
      && 6 <= nt && nt + 1 < |p| <= ANY
      && |q| == QUEUES && |cq| == |p| && |wait| == |p| && |rr| == |p| && |told| == |p|
    }

    /** The scheduler data other than the process table. */
    predicate SameTables(t: State) {
      nt == t.nt && p == t.p && cq == t.cq && sigProcs == t.sigProcs && told == t.told && held == t.held
    }
  }

  predicate RxHardware(s: State, src: int) {
    src == ANY || src == s.Hardware()
  }

  predicate Member(p: seq<Proc>, k: int, i: int) {
    0 <= i < |p| && p[i].Live() && p[i].Queue() == k
  }

  /** An unused or idle slot has no flag. */
  ghost predicate QuietSlots(p: seq<Proc>) {
    forall i :: 0 <= i < |p| && !p[i].Live() ==> p[i].Runnable()
  }

  /** Every entry of a ready queue is a live process on the queue that its priority and group select. */
  ghost predicate Members(s: State) {
    s.Wf() && QuietSlots(s.p) && QueueMembers(s.p, s.q) && LiveCallers(s.p, s.cq)
  }

  /** Only live processes are on caller queues. */
  ghost predicate LiveCallers(p: seq<Proc>, cq: seq<seq<int>>) {
    forall d, j :: 0 <= d < |cq| && 0 <= j < |cq[d]| ==> 0 <= cq[d][j] < |p| && p[cq[d][j]].Live()
  }

  ghost predicate QueueMembers(p: seq<Proc>, q: seq<seq<int>>)
    requires |q| == QUEUES
  {
    forall k, j :: 0 <= k < QUEUES && 0 <= j < |q[k]| ==> Member(p, k, q[k][j])
  }

  // ---------------------------------------------------------------- pick_proc

  /** Scan of pick_proc: the first entry whose counter exceeds every counter before it. */
  function MaxFrom(wait: seq<int>, q: seq<int>, best: int): (r: int)
    requires 0 <= best < |wait| && InTable(q, |wait|)
    ensures r == best || r in q
    ensures 0 <= r < |wait| && wait[r] >= wait[best] && forall j :: 0 <= j < |q| ==> wait[r] >= wait[q[j]]
  {
    if q == [] then best
    else MaxFrom(wait, q[1..], if wait[q[0]] > wait[best] then q[0] else best)
  }

  function Pick(s: State): (r: State)
    requires Members(s)
    ensures r == s.(cur := r.cur, bill := r.bill, wait := r.wait, picks := r.picks)
    ensures r.Wf()
  {
    if s.q[TASK_Q] != [] then s.(cur := s.q[TASK_Q][0])
    else if s.q[SERVER_Q] != [] then s.(cur := s.q[SERVER_Q][0])
    else if s.q[G1_Q] != [] then s.(cur := s.q[G1_Q][0], bill := s.q[G1_Q][0])
    else if s.q[G2_Q] != [] then
      var x := MaxFrom(s.wait, s.q[G2_Q], s.q[G2_Q][0]);
      s.(cur := x, bill := x, wait := s.wait[x := 0], picks := s.picks + [x])
    else if s.q[G3_Q] != [] then s.(cur := s.q[G3_Q][0], bill := s.q[G3_Q][0])
    else if s.q[USER_Q] != [] then s.(cur := s.q[USER_Q][0], bill := s.q[USER_Q][0])
    else s.(cur := s.IdleSlot(), bill := s.IdleSlot())
  }

  // ---------------------------------------------------------------- ready, unready

  /** Group 3: before the first entry whose estimate is not smaller. */
  function InsertByEstimate(p: seq<Proc>, q: seq<int>, i: int): (r: seq<int>)
    requires 0 <= i < |p| && InTable(q, |p|)
  {
    if q == [] || p[q[0]].estimate >= p[i].estimate then [i] + q
    else [q[0]] + InsertByEstimate(p, q[1..], i)
  }

  function Enqueue(s: State, k: int, i: int): (r: seq<int>)
    requires Members(s) && s.Slot(i) && 0 <= k < QUEUES
  {
    if k == USER_Q then [i] + s.q[k]
    else if k == G3_Q then InsertByEstimate(s.p, s.q[k], i)
    else s.q[k] + [i]
  }

  function Ready(s: State, i: int): (r: State)
    requires Members(s) && s.Slot(i)
    ensures r == s.(q := r.q, cur := r.cur) && r.Wf()
  {
    var k := s.p[i].Queue();
    s.(q := s.q[k := Enqueue(s, k, i)],
       cur := if k == TASK_Q && s.q[TASK_Q] == [] then i else s.cur)
  }

  /** Whether unready re-runs pick_proc after taking i off queue k. */
  predicate Repicks(s: State, k: int, i: int)
    requires s.Wf() && 0 <= k < QUEUES
  {
    if k == TASK_Q then s.q[k] != [] && s.q[k][0] == i && i == s.cur
    else if k == SERVER_Q || k == USER_Q then s.q[k] != [] && s.q[k][0] == i
    else i == s.cur
  }

  function Unready(s: State, i: int): (r: State)
    requires Members(s) && s.Slot(i)
    ensures r == s.(q := r.q, cur := r.cur, bill := r.bill, wait := r.wait, picks := r.picks)
    ensures r.q == s.q[s.p[i].Queue() := Remove(s.q[s.p[i].Queue()], i)]
    ensures Members(r)
  {
    var k := s.p[i].Queue();
    var t := s.(q := s.q[k := Remove(s.q[k], i)]);
    if Repicks(s, k, i) then Pick(t) else t
  }

  /** Same queue and liveness, whatever happened to the flags. */
  predicate SameClass(e: Proc, f: Proc) {
    e.priority == f.priority && e.group == f.group
  }

  lemma UpdateKeepsMembers(s: State, i: int, e: Proc)
    requires Members(s) && s.Slot(i)
    ensures SameClass(e, s.p[i]) && e.Live() ==> Members(s.(p := s.p[i := e]))
  {
    if !SameClass(e, s.p[i]) || !e.Live() { return; }
    var t := s.(p := s.p[i := e]);
    forall k, j | 0 <= k < QUEUES && 0 <= j < |t.q[k]| ensures Member(t.p, k, t.q[k][j]) {
      assert Member(s.p, k, s.q[k][j]);
    }
  }

  lemma {:induction false} InsertInTable(p: seq<Proc>, q: seq<int>, i: int)
    requires 0 <= i < |p| && InTable(q, |p|)
    ensures forall j :: 0 <= j < |InsertByEstimate(p, q, i)| ==>
      InsertByEstimate(p, q, i)[j] == i || InsertByEstimate(p, q, i)[j] in q
  {
    if q != [] && p[q[0]].estimate < p[i].estimate {
      InsertInTable(p, q[1..], i);
    }
  }

  lemma ReadyKeepsMembers(s: State, i: int)
    requires Members(s) && s.Slot(i)
    ensures s.p[i].Live() ==> Members(Ready(s, i))
  {
    if !s.p[i].Live() { return; }
    var r := Ready(s, i);
    forall k, j | 0 <= k < QUEUES && 0 <= j < |r.q[k]| ensures Member(r.p, k, r.q[k][j]) {
      if k == s.p[i].Queue() {
        if k == G3_Q { InsertInTable(s.p, s.q[k], i); }
        assert r.q[k][j] == i || r.q[k][j] in s.q[k];
      } else {
        assert r.q[k] == s.q[k];
      }
      if r.q[k][j] in s.q[k] {
        var a :| 0 <= a < |s.q[k]| && s.q[k][a] == r.q[k][j];
        assert Member(s.p, k, s.q[k][a]);
      }
    }
  }

  /** The kernel's idiom `if (p_flags == 0) unready(rp); p_flags |= ...`: slot i becomes e. */
  function Block(s: State, i: int, e: Proc): (r: State)
    requires Members(s) && s.Slot(i)
    ensures r == s.(p := s.p[i := e], q := r.q, cur := r.cur, bill := r.bill, wait := r.wait, picks := r.picks)
    ensures r.Wf() && (SameClass(e, s.p[i]) && e.Live() ==> Members(r))
  {
    var t := if s.p[i].Runnable() then Unready(s, i) else s;
    UpdateKeepsMembers(t, i, e);
    t.(p := t.p[i := e])
  }

  /** The idiom `p_flags &= ~...; if (p_flags == 0) ready(rp)`: slot i becomes e. */
  function Unblock(s: State, i: int, e: Proc): (r: State)
    requires Members(s) && s.Slot(i) && SameClass(e, s.p[i]) && e.Live()
    ensures r == s.(p := s.p[i := e], q := r.q, cur := r.cur)
    ensures Members(r)
  {
    UpdateKeepsMembers(s, i, e);
    var t := s.(p := s.p[i := e]);
    ReadyKeepsMembers(t, i);
    if e.Runnable() then Ready(t, i) else t
  }
}
