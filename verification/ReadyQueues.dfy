/**
 Which processes are on the ready queues, in which order, and who runs.
 */
module ReadyQueues {
  import opened Lists
  import opened KernelState

  ghost predicate Belongs(p: seq<Proc>, k: int, i: int) {
    0 <= i < |p| && p[i].Live() && p[i].Runnable() && p[i].Queue() == k
  }

  /** A live process has no flag set iff it is queued, once, on the queue that its priority and group select. */
  ghost predicate Exact(s: State) {
    s.Wf() && QuietSlots(s.p) && ExactQueues(s.p, s.q) && LiveCallers(s.p, s.cq)
  }

  ghost predicate ExactQueues(p: seq<Proc>, q: seq<seq<int>>)
    requires |q| == QUEUES
  {
    && (forall k :: 0 <= k < QUEUES ==> NoDup(q[k]))
    && (forall k, i :: 0 <= k < QUEUES ==> (i in q[k] <==> Belongs(p, k, i)))
  }

  lemma ExactMembers(s: State)
    requires Exact(s)
    ensures Members(s)
  {
    forall k, j | 0 <= k < QUEUES && 0 <= j < |s.q[k]| ensures Member(s.p, k, s.q[k][j]) {
      assert s.q[k][j] in s.q[k];
    }
  }

  /** Shortest job first: group 3 is queued by nondecreasing estimate. */
  ghost predicate SortedByEstimate(p: seq<Proc>, q: seq<int>) {
    InTable(q, |p|) && forall a, b :: 0 <= a < b < |q| ==> p[q[a]].estimate <= p[q[b]].estimate
  }

  /** The running process heads its queue (in group 2 it is only on it); the idle task runs only if nobody is ready. */
  ghost predicate CurHeads(p: seq<Proc>, q: seq<seq<int>>, cur: int, idle: int)
    requires |q| == QUEUES
  {
    0 <= cur < |p| &&
    if cur == idle then forall k :: 0 <= k < QUEUES ==> q[k] == []
    else
      var k := p[cur].Queue();
      && p[cur].Live() && q[k] != []
      && if k == G2_Q then cur in q[k] else cur == q[k][0]
  }

  /** In addition a ready task is always the one that runs. */
  ghost predicate CurOk(s: State) {
    s.Wf() && CurHeads(s.p, s.q, s.cur, s.IdleSlot()) && (s.q[TASK_Q] != [] ==> s.cur == s.q[TASK_Q][0])
  }

  ghost predicate Queued(s: State) {
    Exact(s) && SortedByEstimate(s.p, s.q[G3_Q]) && s.p[s.IdleSlot()].priority == Idle
  }

  ghost predicate SchedInv(s: State) {
    Queued(s) && CurOk(s)
  }

  /** Only the process table, the queues, the caller queues and the running process matter. */
  lemma SchedFrame(s: State, t: State)
    requires SchedInv(s) && t.Wf() && t.nt == s.nt && t.p == s.p && t.q == s.q && t.cq == s.cq && t.cur == s.cur
    ensures SchedInv(t)
  {
  }

  // ---------------------------------------------------------------- enqueueing

  lemma {:induction false} InsertMembers(p: seq<Proc>, q: seq<int>, i: int)
    requires 0 <= i < |p| && InTable(q, |p|)
    ensures forall y :: y in InsertByEstimate(p, q, i) <==> y == i || y in q
    ensures |InsertByEstimate(p, q, i)| == |q| + 1
    ensures NoDup(q) && i !in q ==> NoDup(InsertByEstimate(p, q, i))
  {
    if q != [] && p[q[0]].estimate < p[i].estimate {
      InsertMembers(p, q[1..], i);
      assert forall y :: y in q <==> y == q[0] || y in q[1..];
      assert forall y :: y in InsertByEstimate(p, q, i) <==> y == q[0] || y in InsertByEstimate(p, q[1..], i);
      if NoDup(q) && i !in q {
        assert q[0] !in q[1..];
        NoDupAppend(InsertByEstimate(p, q[1..], i), q[0]);
      }
    } else if NoDup(q) && i !in q {
      NoDupAppend(q, i);
    }
  }

  lemma {:induction false} InsertSorted(p: seq<Proc>, q: seq<int>, i: int)
    requires 0 <= i < |p| && SortedByEstimate(p, q)
    ensures SortedByEstimate(p, InsertByEstimate(p, q, i))
  {
    var r := InsertByEstimate(p, q, i);
    InsertMembers(p, q, i);
    forall j | 0 <= j < |r| ensures 0 <= r[j] < |p| { assert r[j] in r; }
    if q != [] && p[q[0]].estimate < p[i].estimate {
      InsertSorted(p, q[1..], i);
      InsertMembers(p, q[1..], i);
      var t := InsertByEstimate(p, q[1..], i);
      forall b | 0 <= b < |t| ensures p[q[0]].estimate <= p[t[b]].estimate {
        assert t[b] in t;
      }
    }
  }

  lemma EnqueueMembers(s: State, k: int, i: int)
    requires Members(s) && s.Slot(i) && 0 <= k < QUEUES
    ensures forall y :: y in Enqueue(s, k, i) <==> y == i || y in s.q[k]
    ensures NoDup(s.q[k]) && i !in s.q[k] ==> NoDup(Enqueue(s, k, i))
  {
    if k == G3_Q {
      InsertMembers(s.p, s.q[k], i);
    } else if NoDup(s.q[k]) && i !in s.q[k] {
      NoDupAppend(s.q[k], i);
    }
  }

  lemma {:induction false} RemoveSorted(p: seq<Proc>, q: seq<int>, i: int)
    requires SortedByEstimate(p, q)
    ensures SortedByEstimate(p, Remove(q, i))
  {
    var r := Remove(q, i);
    if q != [] && q[0] != i {
      var u := q[1..];
      var t := Remove(u, i);
      assert SortedByEstimate(p, u);
      RemoveSorted(p, u, i);
      forall b | 0 <= b < |t| ensures 0 <= t[b] < |p| && p[q[0]].estimate <= p[t[b]].estimate {
        var c :| 0 <= c < |u| && u[c] == t[b];
        assert u[c] == q[c + 1];
      }
      hide Remove;
      assert r == [q[0]] + t;
    }
  }

  // ---------------------------------------------------------------- Block and Unblock

  ghost predicate NotQueued(cq: seq<seq<int>>, i: int) {
    forall d, j :: 0 <= d < |cq| && 0 <= j < |cq[d]| ==> cq[d][j] != i
  }

  lemma BlockExact(s: State, i: int, e: Proc)
    requires Exact(s) && Members(s) && s.Slot(i) && e.Live() != e.Runnable()
    requires e.Live() || NotQueued(s.cq, i)
    ensures Exact(Block(s, i, e))
  {
    var r := Block(s, i, e);
    var n := s.p[i].Queue();
    forall k | 0 <= k < QUEUES
      ensures NoDup(r.q[k]) && forall y :: y in r.q[k] <==> y in s.q[k] && y != i
    {
      RemoveMembers(s.q[n], i);
      assert k != n ==> r.q[k] == s.q[k];
      assert i in s.q[k] <==> Belongs(s.p, k, i);
    }
    forall k, y | 0 <= k < QUEUES ensures y in r.q[k] <==> Belongs(r.p, k, y) {
      assert y in s.q[k] <==> Belongs(s.p, k, y);
    }
  }

  lemma BlockSorted(s: State, i: int, e: Proc)
    requires Exact(s) && Members(s) && s.Slot(i) && e.Live() != e.Runnable() && SortedByEstimate(s.p, s.q[G3_Q])
    requires e.Live() || NotQueued(s.cq, i)
    ensures SortedByEstimate(s.p[i := e], Block(s, i, e).q[G3_Q])
  {
    var r := Block(s, i, e);
    RemoveSorted(s.p, s.q[G3_Q], i);
    BlockExact(s, i, e);
    assert SortedByEstimate(s.p, r.q[G3_Q]) by {
      assert s.p[i].Queue() != G3_Q ==> r.q[G3_Q] == s.q[G3_Q];
    }
    assert i !in r.q[G3_Q] by { assert i in r.q[G3_Q] <==> Belongs(r.p, G3_Q, i); }
  }

  /** The order in which pick_proc looks at the queues. */
  const PICK_ORDER: seq<int> := [TASK_Q, SERVER_Q, G1_Q, G2_Q, G3_Q, USER_Q]

  /** x has the largest counter of q, and every entry before its place has a smaller one. */
  ghost predicate FirstLargest(wait: seq<int>, q: seq<int>, x: int)
    requires InTable(q, |wait|) && 0 <= x < |wait|
  {
    exists j :: 0 <= j < |q| && q[j] == x && LargestAt(wait, q, j)
  }

  ghost predicate LargestAt(wait: seq<int>, q: seq<int>, j: int)
    requires InTable(q, |wait|) && 0 <= j < |q|
  {
    forall i :: 0 <= i < |q| ==> wait[q[i]] <= wait[q[j]] && (i < j ==> wait[q[i]] < wait[q[j]])
  }

  /** The scan moves on to a later entry only if its counter is larger. */
  lemma {:induction false} MaxFromFirst(wait: seq<int>, q: seq<int>, best: int) returns (j: int)
    requires 0 <= best < |wait| && InTable(q, |wait|)
    ensures -1 <= j < |q| && MaxFrom(wait, q, best) == if j < 0 then best else q[j]
    ensures j >= 0 ==> wait[best] < wait[q[j]] && forall i :: 0 <= i < j ==> wait[q[i]] < wait[q[j]]
  {
    if q == [] {
      j := -1;
    } else {
      var t := q[1..];
      assert forall i :: 0 <= i < |t| ==> t[i] == q[i + 1];
      var k := MaxFromFirst(wait, t, if wait[q[0]] > wait[best] then q[0] else best);
      j := if k >= 0 then k + 1 else if wait[q[0]] > wait[best] then 0 else -1;
    }
  }

  lemma MaxFromLargest(wait: seq<int>, q: seq<int>)
    requires InTable(q, |wait|) && q != []
    ensures FirstLargest(wait, q, MaxFrom(wait, q, q[0]))
  {
    var j := MaxFromFirst(wait, q, q[0]);
    assert LargestAt(wait, q, if j < 0 then 0 else j);
  }

  lemma QueueInTable(s: State, k: int)
    requires Members(s) && 0 <= k < QUEUES
    ensures InTable(s.q[k], |s.wait|)
  {
    assert forall j :: 0 <= j < |s.q[k]| ==> Member(s.p, k, s.q[k][j]);
  }

  /** pick_proc takes the first queue of the order that is not empty: its head, in group 2 the first with the largest
      counter, which is reset. Users are billed. */
  lemma PickOrder(s: State, n: nat)
    requires Members(s) && n < |PICK_ORDER| && s.q[PICK_ORDER[n]] != []
    requires forall m :: 0 <= m < n ==> s.q[PICK_ORDER[m]] == []
    ensures var r, k := Pick(s), PICK_ORDER[n];
      && r.bill == (if k == TASK_Q || k == SERVER_Q then s.bill else r.cur)
      && InTable(s.q[k], |s.wait|) && 0 <= r.cur < |s.wait|
      && if k == G2_Q then FirstLargest(s.wait, s.q[k], r.cur) && r.wait == s.wait[r.cur := 0]
        && r.picks == s.picks + [r.cur]
         else r.cur == s.q[k][0] && r.wait == s.wait && r.picks == s.picks
  {
    var k := PICK_ORDER[n];
    QueueInTable(s, k);
    assert forall m :: 0 <= m < n ==> s.q[PICK_ORDER[m]] == [];
    assert n > 0 ==> s.q[PICK_ORDER[0]] == [];
    assert n > 1 ==> s.q[PICK_ORDER[1]] == [];
    assert n > 2 ==> s.q[PICK_ORDER[2]] == [];
    assert n > 3 ==> s.q[PICK_ORDER[3]] == [];
    assert n > 4 ==> s.q[PICK_ORDER[4]] == [];
    if k == G2_Q { MaxFromLargest(s.wait, s.q[k]); }
  }

  /** The idle task runs exactly when no queue has an entry. */
  lemma PickIdleIff(s: State)
    requires Members(s) && s.p[s.IdleSlot()].priority == Idle
    ensures Pick(s).cur == s.IdleSlot() <==> forall k :: 0 <= k < QUEUES ==> s.q[k] == []
  {
    PickCur(s);
  }

  lemma PickCur(s: State)
    requires Members(s) && s.p[s.IdleSlot()].priority == Idle
    ensures CurOk(Pick(s))
  {
    var r := Pick(s);
    assert forall k :: 0 <= k < QUEUES && s.q[k] != [] ==> Member(s.p, k, s.q[k][0]);
    if s.q[TASK_Q] == [] && s.q[SERVER_Q] == [] && s.q[G1_Q] == [] && s.q[G2_Q] != [] {
      var x := MaxFrom(s.wait, s.q[G2_Q], s.q[G2_Q][0]);
      assert x in s.q[G2_Q];
      assert Member(s.p, G2_Q, x);
    }
  }

  lemma UnreadyCur(s: State, i: int)
    requires SchedInv(s) && Members(s) && s.Slot(i) && s.p[i].Runnable()
    ensures CurOk(Unready(s, i)) && (s.p[i].Live() ==> Unready(s, i).cur != i)
  {
    var k := s.p[i].Queue();
    var t := s.(q := s.q[k := Remove(s.q[k], i)]);
    RemoveMembers(s.q[k], i);
    assert i in s.q[k] <==> Belongs(s.p, k, i);
    assert Members(t);
    if Repicks(s, k, i) {
      PickCur(t);
      var c := Unready(s, i).cur;
      if c != s.IdleSlot() {
        assert c in t.q[s.p[c].Queue()];
        assert s.p[i].Live() ==> c != i;
      }
    } else if s.cur == s.IdleSlot() {
      assert forall n :: 0 <= n < QUEUES ==> t.q[n] == [];
    }
  }

  lemma CurBelongs(s: State)
    requires Exact(s) && CurOk(s) && s.cur != s.IdleSlot()
    ensures s.p[s.cur].Live() && s.p[s.cur].Runnable()
  {
    assert s.cur in s.q[s.p[s.cur].Queue()];
    assert Belongs(s.p, s.p[s.cur].Queue(), s.cur);
  }

  lemma BlockCur(s: State, i: int, e: Proc)
    requires SchedInv(s) && Members(s) && s.Slot(i) && s.p[i].Live()
    ensures CurOk(Block(s, i, e)) && Block(s, i, e).cur != i
  {
    if s.p[i].Runnable() {
      UnreadyCur(s, i);
    } else if s.cur != s.IdleSlot() {
      CurBelongs(s);
    }
  }

  lemma BlockSched(s: State, i: int, e: Proc)
    requires SchedInv(s) && Members(s) && s.Slot(i) && s.p[i].Live() && e.Live() != e.Runnable()
    requires e.Live() || NotQueued(s.cq, i)
    ensures SchedInv(Block(s, i, e))
  {
    BlockExact(s, i, e);
    BlockSorted(s, i, e);
    BlockCur(s, i, e);
  }

  /** Readying a process adds it to exactly the queue it belongs to. */
  lemma UnblockExact(s: State, i: int, e: Proc)
    requires Exact(s) && Members(s) && s.Slot(i) && !s.p[i].Runnable() && SameClass(e, s.p[i]) && e.Live()
    ensures Exact(Unblock(s, i, e))
  {
    UpdateKeepsMembers(s, i, e);
    var t := s.(p := s.p[i := e]);
    var r := Unblock(s, i, e);
    var n := e.Queue();
    forall k ensures 0 <= k < QUEUES ==> i !in s.q[k] {
      if 0 <= k < QUEUES { assert i in s.q[k] <==> Belongs(s.p, k, i); }
    }
    EnqueueMembers(t, n, i);
    forall k | 0 <= k < QUEUES
      ensures NoDup(r.q[k]) && forall y :: y in r.q[k] <==> y in s.q[k] || (y == i && k == n && e.Runnable())
    {
      assert k != n ==> r.q[k] == s.q[k];
    }
    forall k, y | 0 <= k < QUEUES ensures y in r.q[k] <==> Belongs(r.p, k, y) {
      assert y in s.q[k] <==> Belongs(s.p, k, y);
    }
  }

  lemma UnblockQueued(s: State, i: int, e: Proc)
    requires Queued(s) && Members(s) && s.Slot(i) && !s.p[i].Runnable() && s.p[i].Live() && SameClass(e, s.p[i])
    ensures Queued(Unblock(s, i, e))
  {
    UnblockExact(s, i, e);
    UpdateKeepsMembers(s, i, e);
    var t := s.(p := s.p[i := e]);
    assert SortedByEstimate(t.p, t.q[G3_Q]) by {
      assert i in s.q[G3_Q] <==> Belongs(s.p, G3_Q, i);
    }
    if e.Runnable() && e.Queue() == G3_Q {
      InsertSorted(t.p, t.q[G3_Q], i);
    }
  }

  /** Making a process ready keeps the running process in place: a ready task preempts, and a user is never readied by
      another user. */
  lemma UnblockSched(s: State, i: int, e: Proc)
    requires SchedInv(s) && Members(s) && s.Slot(i) && !s.p[i].Runnable() && s.p[i].Live() && SameClass(e, s.p[i])
    requires e.Runnable() ==>
      e.priority == Task || (s.cur != s.IdleSlot() && (e.priority == User ==> s.p[s.cur].priority != User))
    ensures SchedInv(Unblock(s, i, e))
  {
    UnblockQueued(s, i, e);
    if s.cur != s.IdleSlot() { CurBelongs(s); }
  }

  /** A change that neither starts nor stops a process leaves the queues right. */
  lemma UpdateQueued(s: State, i: int, e: Proc)
    requires Queued(s) && s.Slot(i) && SameClass(e, s.p[i]) && e.estimate == s.p[i].estimate
    requires e.Runnable() == s.p[i].Runnable()
    ensures Queued(s.(p := s.p[i := e]))
    ensures CurOk(s) ==> CurOk(s.(p := s.p[i := e]))
  {
    var t := s.(p := s.p[i := e]);
    forall k, y | 0 <= k < QUEUES ensures y in t.q[k] <==> Belongs(t.p, k, y) {
      assert y in s.q[k] <==> Belongs(s.p, k, y);
    }
  }

  /** A slot that is on no queue may change as long as it stays off the queues. */
  lemma ReplaceQueued(s: State, i: int, e: Proc)
    requires Queued(s) && s.Slot(i) && i != s.IdleSlot()
    requires !(s.p[i].Live() && s.p[i].Runnable()) && (s.p[i].Live() ==> e.Live()) && e.Live() != e.Runnable()
    ensures Queued(s.(p := s.p[i := e]))
    ensures CurOk(s) ==> CurOk(s.(p := s.p[i := e]))
  {
    var t := s.(p := s.p[i := e]);
    forall k, y | 0 <= k < QUEUES ensures y in t.q[k] <==> Belongs(t.p, k, y) {
      assert y in s.q[k] <==> Belongs(s.p, k, y);
    }
    assert forall j :: 0 <= j < |s.q[G3_Q]| ==> s.q[G3_Q][j] in s.q[G3_Q];
    if CurOk(s) && s.cur != s.IdleSlot() {
      CurBelongs(s);
    }
  }

  // ---------------------------------------------------------------- pick_proc, sched

  lemma PickSched(s: State)
    requires Queued(s) && Members(s)
    ensures SchedInv(Pick(s))
  {
    PickCur(s);
  }

  function Rotate(q: seq<int>): (r: seq<int>)
    requires q != []
    ensures |r| == |q| && r[|q| - 1] == q[0]
    ensures forall j :: 0 <= j < |q| - 1 ==> r[j] == q[j + 1]
  {
    q[1..] + [q[0]]
  }

  lemma RotateMembers(q: seq<int>)
    requires q != []
    ensures forall y :: y in Rotate(q) <==> y in q
    ensures NoDup(q) ==> NoDup(Rotate(q))
  {
    var r := Rotate(q);
    forall y ensures y in r <==> y in q {
      if y in q {
        var j :| 0 <= j < |q| && q[j] == y;
        assert y == r[if j == 0 then |q| - 1 else j - 1];
      }
    }
  }

  /** sched(): group 1 rotates its own queue, everybody else the user queue. */
  function Sched(s: State): (r: State)
    requires Members(s) && s.Slot(s.cur)
    ensures r.SameTables(s) && r.Wf() && r.aging == s.aging
    ensures forall k :: 0 <= k < QUEUES && k != G1_Q && k != USER_Q ==> r.q[k] == s.q[k]
  {
    if s.p[s.cur].Queue() == G1_Q then
      if |s.q[G1_Q]| >= 2 then
        var t := s.(q := s.q[G1_Q := Rotate(s.q[G1_Q])], rr := s.rr[s.cur := 0]);
        RotateKeepsMembers(s, t, G1_Q);
        Pick(t)
      else s
    else if s.q[USER_Q] == [] then s
    else
      var t := s.(q := s.q[USER_Q := Rotate(s.q[USER_Q])]);
      RotateKeepsMembers(s, t, USER_Q);
      Pick(t)
  }

  lemma RotateKeepsMembers(s: State, t: State, k: int)
    requires Members(s) && 0 <= k < QUEUES && s.q[k] != []
    requires t == s.(q := s.q[k := Rotate(s.q[k])], rr := t.rr) && t.Wf()
    ensures Members(t)
  {
    forall n, j | 0 <= n < QUEUES && 0 <= j < |t.q[n]| ensures Member(t.p, n, t.q[n][j]) {
      if n == k {
        assert Member(s.p, k, s.q[k][if j == |s.q[k]| - 1 then 0 else j + 1]);
      } else {
        assert Member(s.p, n, s.q[n][j]);
      }
    }
  }

  lemma SchedKeepsInv(s: State)
    requires SchedInv(s) && Members(s)
    ensures SchedInv(Sched(s))
  {
    var k := if s.p[s.cur].Queue() == G1_Q then G1_Q else USER_Q;
    if s.q[k] != [] && (k == G1_Q ==> |s.q[k]| >= 2) {
      var t := s.(q := s.q[k := Rotate(s.q[k])], rr := if k == G1_Q then s.rr[s.cur := 0] else s.rr);
      RotateKeepsMembers(s, t, k);
      RotateMembers(s.q[k]);
      forall n, y | 0 <= n < QUEUES ensures y in t.q[n] <==> Belongs(t.p, n, y) {
        assert y in s.q[n] <==> Belongs(s.p, n, y);
        assert n != k ==> t.q[n] == s.q[n];
      }
      PickSched(t);
    }
  }
}
