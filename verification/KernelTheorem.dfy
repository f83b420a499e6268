/**
 The guarantees of the kernel core over every run, and where its trust in its callers is needed.
 */
module KernelTheorem {
  import opened Lists
  import opened KernelState
  import opened SendGraph
  import opened ReadyQueues
  import opened Messages
  import opened Rendezvous
  import opened Signals
  import opened SystemTask
  import opened KernelRuns
  import opened KernelInvariant
  import opened KernelSteps
  import opened StartUp

  lemma {:induction false} RunKeepsInv(run: seq<State>, steps: seq<Step>, j: nat)
    requires Run(run, steps) && Inv(run[0]) && j < |run|
    ensures Inv(run[j])
  {
    if j > 0 {
      hide Run, Inv, Apply;
      RunKeepsInv(run, steps, j - 1);
      RunStep(run, steps, j - 1);
      FollowsKeeps(run[j - 1], steps[j - 1], run[j]);
    }
  }

  lemma FollowsKeeps(s: State, st: Step, t: State)
    requires Follows(s, st, t)
    ensures Inv(t)
  {
    hide Inv, Apply;
    StepKeepsInv(s, st);
  }

  // ---------------------------------------------------------------- start-up

  lemma BootQueues(nt: int, size: int)
    requires BootSizes(nt, size)
    ensures Queued(Boot(nt, size)) && Members(Boot(nt, size))
  {
    var s := Boot(nt, size);
    forall k | 0 <= k < QUEUES ensures NoDup(s.q[k]) && forall y :: y in s.q[k] <==> Belongs(s.p, k, y) {
      assert s.q[k] == Filter(s.p, k, 0);
      FilterMembers(s.p, k, 0);
    }
    assert forall j :: 0 <= j < |s.q[G3_Q]| ==> s.q[G3_Q][j] in s.q[G3_Q] && Belongs(s.p, G3_Q, s.q[G3_Q][j]);
    ExactMembers(s);
  }

  lemma BootRest(nt: int, size: int)
    requires BootSizes(nt, size)
    ensures Rest(Boot(nt, size))
  {
    var s := Boot(nt, size);
    forall a | 0 <= a < |s.p| ensures Stops(s.p, a) { assert Ends(s.p, a, 0); }
    assert PendingSlots(s.p) == {};
  }

  lemma BootInv(nt: int, size: int)
    requires BootSizes(nt, size)
    ensures Members(Boot(nt, size)) && Inv(Pick(Boot(nt, size)))
  {
    BootQueues(nt, size);
    BootRest(nt, size);
    PickSched(Boot(nt, size));
  }

  /** The first state after start-up of a system with nt tasks and size slots. */
  ghost predicate Started(nt: int, size: int, s: State) {
    BootSizes(nt, size) && Members(Boot(nt, size)) && s == Pick(Boot(nt, size))
  }

  /** s is the last state of a run from start-up. */
  ghost predicate Reachable(s: State) {
    exists nt: int, size: int, run: seq<State>, steps: seq<Step> :: ReachedBy(nt, size, run, steps, s)
  }

  ghost predicate ReachedBy(nt: int, size: int, run: seq<State>, steps: seq<Step>, s: State) {
    Run(run, steps) && Started(nt, size, run[0]) && s == run[|steps|]
  }

  lemma ReachableInv(s: State)
    requires Reachable(s)
    ensures Inv(s)
  {
    hide Inv, Run;
    var nt, size, run, steps :| ReachedBy(nt, size, run, steps, s);
    RunLength(run, steps);
    BootInv(nt, size);
    RunKeepsInv(run, steps, |steps|);
  }

  // ---------------------------------------------------------------- what a reachable state guarantees

  /** Runnable iff on exactly one ready queue, at exactly one place, and it is the right one. */
  lemma RunnableIffQueuedOnce(s: State, i: int)
    requires Reachable(s) && s.Slot(i) && s.p[i].Live()
    ensures s.Wf()
    ensures s.p[i].Runnable() <==> i in s.q[s.p[i].Queue()]
    ensures forall k :: 0 <= k < QUEUES && k != s.p[i].Queue() ==> i !in s.q[k]
    ensures forall k, a, b :: 0 <= k < QUEUES && 0 <= a < b < |s.q[k]| ==> s.q[k][a] != s.q[k][b]
  {
    ReachableInv(s);
    forall k | 0 <= k < QUEUES ensures i in s.q[k] <==> Belongs(s.p, k, i) {}
  }

  /** The deadlock check refuses a send iff it would close a cycle; hence there never is one. */
  lemma DeadlockCheckExact(s: State, c: int, d: int)
    requires Reachable(s) && s.Wf() && s.Slot(c) && s.Slot(d) && c != d
    requires s.p[d].priority != Unused && (s.p[c].priority == User ==> d == s.Fs() || d == s.Mm())
    ensures SendStatus(s, c, d) == Locked <==> Reaches(s.p, d, c)
    ensures forall a, m: nat :: s.Slot(a) && m > 0 ==> !Path(s.p, a, a, m)
  {
    ReachableInv(s);
    WalkIsReach(s.p, d, c);
    forall a, m: nat | s.Slot(a) && m > 0 ensures !Path(s.p, a, a, m) {
      AcyclicHasNoCycle(s.p, a, m);
    }
  }

  /** No message waits for a process that is waiting for it. */
  lemma NoMissedRendezvous(s: State, c: int, d: int)
    requires Reachable(s) && s.Slot(c) && s.Slot(d)
    ensures s.Wf()
    ensures c in s.cq[d] <==> s.p[c].sending && s.p[c].sendto == d
    ensures s.p[c].sending && s.p[c].sendto == d ==> !Waits(s.p[d], c)
    ensures s.p[d].receiving && !s.p[d].sending && RxHardware(s, s.p[d].getfrom) ==> !s.p[d].intBlocked
  {
    ReachableInv(s);
    RendezvousSound(s.nt, s.p, s.cq, c, d);
  }

  lemma RendezvousSound(nt: int, p: seq<Proc>, cq: seq<seq<int>>, c: int, d: int)
    requires MsgInv(nt, p, cq) && 0 <= c < |p| && 0 <= d < |p|
    ensures c in cq[d] <==> p[c].sending && p[c].sendto == d
    ensures p[c].sending && p[c].sendto == d ==> !Waits(p[d], c)
    ensures p[d].receiving && !p[d].sending && (p[d].getfrom == ANY || p[d].getfrom == nt - 1) ==> !p[d].intBlocked
  {
    assert c in cq[d] <==> SendsTo(p, c, d);
    SoundSlot(nt, p, cq, d);
  }

  /** While a signal of i is unfinished, i cannot run; sig_procs tells exactly how many processes the memory manager
      must still hear of. */
  lemma SignalAccounting(s: State, i: int)
    requires Reachable(s) && s.Slot(i)
    ensures s.Wf()
    ensures s.sigProcs == |PendingSlots(s.p)|
    ensures s.p[i].pendcount == |s.p[i].pendingSet| + s.told[i]
    ensures s.p[i].pendingSet != {} || s.told[i] > 0 ==> !s.p[i].Runnable()
    ensures s.p[i].sigPending <==> s.p[i].pendingSet != {} || s.told[i] > 0
  {
    ReachableInv(s);
    assert SigOk(s.p[i], s.told[i]);
    assert s.p[i].pendingSet != {} ==> |s.p[i].pendingSet| > 0;
  }

  // ---------------------------------------------------------------- where the callers are trusted, exactly

  /** do_setgroup moves no queue link, so the right processes are queued iff this one is blocked or keeps its queue. */
  lemma SetGroupExactIff(s: State, n: int, g: int, est: int)
    requires Inv(s) && IsUser(s, n)
    ensures ExactQueues(SetGroup(s, n, g, est).1.p, s.q)
      <==> !s.p[n].Runnable() || SetGroup(s, n, g, est).1.p[n].Queue() == s.p[n].Queue()
  {
    var r := SetGroup(s, n, g, est).1;
    assert forall k :: 0 <= k < QUEUES ==> (n in s.q[k] <==> Belongs(s.p, k, n));
    assert forall k, y :: y != n ==> Belongs(r.p, k, y) == Belongs(s.p, k, y);
    if s.p[n].Runnable() && r.p[n].Queue() != s.p[n].Queue() {
      assert n in s.q[s.p[n].Queue()];
      assert !Belongs(r.p, s.p[n].Queue(), n);
    }
  }

  /** The estimate fits between the two neighbours of n on its queue; without n there is nothing to fit. */
  ghost predicate FitsBetween(p: seq<Proc>, q: seq<int>, n: int, estimate: int)
    requires InTable(q, |p|)
  {
    forall j :: 0 <= j < |q| && q[j] == n ==>
      (j > 0 ==> p[q[j - 1]].estimate <= estimate) && (j < |q| - 1 ==> estimate <= p[q[j + 1]].estimate)
  }

  lemma FitsSorted(p: seq<Proc>, q: seq<int>, n: int, e: Proc)
    requires 0 <= n < |p| && SortedByEstimate(p, q) && NoDup(q)
    ensures SortedByEstimate(p[n := e], q) <==> FitsBetween(p, q, n, e.estimate)
  {
    var r := p[n := e];
    if SortedByEstimate(r, q) {
      forall j | 0 <= j < |q| && q[j] == n
        ensures (j > 0 ==> p[q[j - 1]].estimate <= e.estimate) && (j < |q| - 1 ==> e.estimate <= p[q[j + 1]].estimate)
      {
        assert j > 0 ==> r[q[j - 1]].estimate <= r[q[j]].estimate && q[j - 1] != n;
        assert j < |q| - 1 ==> r[q[j]].estimate <= r[q[j + 1]].estimate && q[j + 1] != n;
      }
    }
    if FitsBetween(p, q, n, e.estimate) {
      forall a, b | 0 <= a < b < |q| ensures r[q[a]].estimate <= r[q[b]].estimate {
        assert p[q[a]].estimate <= p[q[b]].estimate;
        if q[a] == n { assert p[q[a + 1]].estimate <= p[q[b]].estimate; }
        if q[b] == n { assert p[q[a]].estimate <= p[q[b - 1]].estimate; }
      }
    }
  }

  /** Nor does it move the process within its queue, so the queues stay right in content and order iff in addition the
      new estimate fits between those of its neighbours in group 3. */
  lemma SetGroupQueuedIff(s: State, n: int, g: int, est: int)
    requires Inv(s) && IsUser(s, n)
    ensures InTable(s.q[G3_Q], |s.p|)
    ensures var r := SetGroup(s, n, g, est).1;
      Queued(r) <==> (!s.p[n].Runnable() || r.p[n].Queue() == s.p[n].Queue())
                     && FitsBetween(s.p, s.q[G3_Q], n, if g == 3 then est else 100)
  {
    SetGroupExactIff(s, n, g, est);
    FitsSorted(s.p, s.q[G3_Q], n, SetGroup(s, n, g, est).1.p[n]);
  }

  /** T_RESUME readies whatever has no flag left, so it is right iff some flag was set before. */
  lemma ResumeExactIff(s: State, n: int)
    requires Inv(s) && Members(s) && TaskRuns(s) && IsUser(s, n)
    ensures ExactQueues(Resume(s, n).p, Resume(s, n).q) <==> !s.p[n].Runnable()
  {
    if s.p[n].Runnable() {
      var k := s.p[n].Queue();
      assert s.p[n].(stopped := false) == s.p[n];
      assert n in s.q[k] by { assert n in s.q[k] <==> Belongs(s.p, k, n); }
      assert s.(p := s.p[n := s.p[n]]) == s;
      assert Resume(s, n) == Ready(s, n);
      DoubleEnqueue(s, k, n);
    } else if s.p[n].stopped {
      ResumeKeeps(s, n);
    } else {
      assert s.p[n].(stopped := false) == s.p[n];
      assert s.(p := s.p[n := s.p[n]]) == s;
    }
  }

  /** So is do_exec, which clears RECEIVING, for a process that is not traced. */
  lemma ExecExactIff(s: State, n: int)
    requires Inv(s) && Members(s) && TaskRuns(s) && IsUser(s, n)
    ensures s.p[n].Live() && s.p[s.Mm()].Live()
    ensures var r := Exec(s, n, false, 0); ExactQueues(r.p, r.q) <==> !s.p[n].Runnable()
  {
    var e := s.p[n].(receiving := false);
    if s.p[n].Runnable() {
      var k := s.p[n].Queue();
      assert e == s.p[n];
      assert n in s.q[k] by { assert n in s.q[k] <==> Belongs(s.p, k, n); }
      assert s.(p := s.p[n := s.p[n]]) == s;
      assert Exec(s, n, false, 0) == Ready(s, n);
      DoubleEnqueue(s, k, n);
    } else {
      UserUnblocks(s, n, e);
    }
  }

  lemma DoubleEnqueue(s: State, k: int, n: int)
    requires Members(s) && s.Slot(n) && 0 <= k < QUEUES && n in s.q[k]
    ensures !NoDup(Enqueue(s, k, n))
  {
    if k == G3_Q {
      DoubleInsert(s.p, s.q[k], n);
    } else {
      var j :| 0 <= j < |s.q[k]| && s.q[k][j] == n;
      var r := Enqueue(s, k, n);
      assert if k == USER_Q then r[0] == n == r[j + 1] else r[j] == n == r[|s.q[k]|];
    }
  }

  lemma {:induction false} DoubleInsert(p: seq<Proc>, q: seq<int>, n: int)
    requires 0 <= n < |p| && InTable(q, |p|) && n in q
    ensures !NoDup(InsertByEstimate(p, q, n))
  {
    var r := InsertByEstimate(p, q, n);
    if p[q[0]].estimate >= p[n].estimate {
      var j :| 0 <= j < |q| && q[j] == n;
      assert r[0] == n == r[j + 1];
    } else {
      assert q[0] != n;
      assert n in q[1..];
      DoubleInsert(p, q[1..], n);
      var t := InsertByEstimate(p, q[1..], n);
      var a, b :| 0 <= a < b < |t| && t[a] == t[b];
      assert r[a + 1] == r[b + 1];
    }
  }

  /** A blocked send keeps the graph of senders acyclic iff the sender is not its own destination: the walk does not
      look at its first node. */
  lemma SendAcyclicIff(s: State, c: int, d: int)
    requires Inv(s) && Members(s) && s.Slot(c) && s.Slot(d) && s.p[c].Live() && s.p[c].Runnable()
    requires SendStatus(s, c, d) == Ok && !Waits(s.p[d], c)
    ensures Acyclic(MiniSend(s, c, d).p) <==> c != d
  {
    var r := s.p[c := s.p[c].(sending := true, sendto := d)];
    NewEdgeAcyclicIff(s.p, r, c, d);
    if c == d {
      assert Path(s.p, d, c, 0);
    } else {
      WalkIsReach(s.p, d, c);
    }
  }

  /** do_fork copies p_callerq, so caller queues stay right iff the parent neither sends nor is sent to. */
  lemma ForkCallersIff(s: State, parent: int, child: int)
    requires Inv(s) && IsUser(s, parent) && s.Slot(child) && s.p[child].priority == Unused
    ensures Callers(Fork(s, parent, child).p, Fork(s, parent, child).cq) <==> !s.p[parent].sending && s.cq[parent] == []
  {
    var r := Fork(s, parent, child);
    SoundSlot(s.nt, s.p, s.cq, child);
    SoundSlot(s.nt, s.p, s.cq, parent);
    assert SigOk(s.p[child], s.told[child]);
    if s.p[parent].sending {
      var d := s.p[parent].sendto;
      assert SendsTo(r.p, child, d);
      assert child in s.cq[d] <==> SendsTo(s.p, child, d);
      assert child in r.cq[d] ==> d == child;
    } else if s.cq[parent] != [] {
      var c := s.cq[parent][0];
      assert c in s.cq[parent] && c in r.cq[child];
      assert c in s.cq[parent] <==> SendsTo(s.p, c, parent);
      assert !SendsTo(r.p, c, child);
    } else {
      CopyKeeps(s.nt, s.p, s.cq, parent, child, r.p[child]);
    }
  }

  ghost predicate Stranded(p: seq<Proc>, i: int) {
    0 <= i < |p| && p[i].sending && 0 <= p[i].sendto < |p| && p[p[i].sendto].priority == Unused
  }

  /** do_xit leaves a blocked sender without a destination iff somebody was sending to the exiting process. */
  lemma ExitStrandsIff(s: State, n: int)
    requires Inv(s) && Members(s) && IsUser(s, n)
    ensures s.p[n].sending ==> s.Slot(s.p[n].sendto)
    ensures (forall i :: !Stranded(Xit(s, n).p, i)) <==> s.cq[n] == []
  {
    SoundSlot(s.nt, s.p, s.cq, n);
    var r := Xit(s, n);
    if s.cq[n] != [] {
      var c := s.cq[n][0];
      assert c in s.cq[n];
      assert SendsTo(s.p, c, n);
      assert c != n;
      assert Stranded(r.p, c);
    } else {
      forall i ensures !Stranded(r.p, i) {
        if 0 <= i < |s.p| {
          SoundSlot(s.nt, s.p, s.cq, i);
          assert i in s.cq[n] <==> SendsTo(s.p, i, n);
        }
      }
    }
  }
}
