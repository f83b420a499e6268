/**
 The process table in its own form: link fields, heads and tails updated in place. Each method leaves the
 table representing the state that the function of the same name in the value model computes.
 The fields of `struct proc` are columns of the table; a pointer is a slot or NIL.
 */
module ProcTable {
  import opened Lists
  import opened IntrusiveList
  import opened KernelState
  import opened SendGraph
  import opened ReadyQueues
  import opened Messages
  import opened Rendezvous
  import opened Signals
  import opened SystemTask
  import opened KernelRuns
  import opened KernelInvariant
  import opened KernelSteps
  import opened StartUp

  /** Heads, tails and p_nextready represent the ready queues; the tail of an empty queue is not looked at. */
  ghost predicate ReadyRep(next: seq<int>, head: seq<int>, tail: seq<int>, q: seq<seq<int>>) {
    && |head| == |tail| == |q| == QUEUES
    && forall k :: 0 <= k < QUEUES ==> IsList(next, head[k], q[k]) && (q[k] != [] ==> tail[k] == q[k][|q[k]| - 1])
  }

  /** p_callerq and p_sendlink represent the caller queues. */
  ghost predicate CallerRep(sendlink: seq<int>, callerq: seq<int>, cq: seq<seq<int>>) {
    && |callerq| == |sendlink| == |cq|
    && forall d :: 0 <= d < |cq| ==> IsList(sendlink, callerq[d], cq[d])
  }

  /** No slot is on a caller queue twice, or on two of them. */
  ghost predicate Apart(cq: seq<seq<int>>) {
    && (forall d :: 0 <= d < |cq| ==> NoDup(cq[d]))
    && forall a, b, x :: 0 <= a < |cq| && 0 <= b < |cq| && a != b && x in cq[a] ==> x !in cq[b]
  }

  lemma CallersApart(p: seq<Proc>, cq: seq<seq<int>>)
    requires Callers(p, cq)
    ensures Apart(cq)
  {
    forall a, b, x | 0 <= a < |cq| && 0 <= b < |cq| && a != b && x in cq[a] ensures x !in cq[b] {
      assert SendsTo(p, x, a);
      assert x in cq[b] <==> SendsTo(p, x, b);
    }
  }

  ghost predicate NotReady(q: seq<seq<int>>, i: int) {
    forall k :: 0 <= k < |q| ==> i !in q[k]
  }

  /** A change of links inside queue k leaves the other queues alone: their entries are of another class. */
  lemma OtherQueuesKept(s: State, next: seq<int>, r: seq<int>, head: seq<int>, tail: seq<int>, k: int, i: int)
    requires Members(s) && ReadyRep(next, head, tail, s.q) && |r| == |next| && 0 <= k < QUEUES
      && NotReady(s.q[k := []], i)
    requires forall x :: 0 <= x < |next| && x != i && x !in s.q[k] ==> r[x] == next[x]
    ensures forall m :: 0 <= m < QUEUES && m != k ==> IsList(r, head[m], s.q[m])
  {
    forall m | 0 <= m < QUEUES && m != k ensures IsList(r, head[m], s.q[m]) {
      forall j | 0 <= j < |s.q[m]| ensures r[s.q[m][j]] == next[s.q[m][j]] {
        assert Member(s.p, m, s.q[m][j]);
        assert forall a :: 0 <= a < |s.q[k]| ==> Member(s.p, k, s.q[k][a]) && s.q[k][a] != s.q[m][j];
        assert s.q[k := []][m] == s.q[m] && s.q[m][j] in s.q[m];
      }
      ListFrame(next, r, head[m], s.q[m]);
    }
  }

  lemma {:induction false} InsertAt(p: seq<Proc>, q: seq<int>, i: int, j: nat)
    requires 0 <= i < |p| && InTable(q, |p|) && j <= |q|
    requires forall m :: 0 <= m < j ==> p[q[m]].estimate < p[i].estimate
    requires j < |q| ==> p[q[j]].estimate >= p[i].estimate
    ensures InsertByEstimate(p, q, i) == q[..j] + [i] + q[j..]
  {
    if j > 0 {
      var t := q[1..];
      assert forall m :: 0 <= m < |t| ==> t[m] == q[m + 1];
      InsertAt(p, t, i, j - 1);
      assert q[..j] == [q[0]] + t[..j - 1] && t[j - 1..] == q[j..];
    }
  }

  /** The tasks whose interrupts are held up: p_int_held and the list from held_head to held_tail along p_nextheld. */
  class HeldQueue {
    const isHeld: array<bool>    // p_int_held
    const nextHeld: array<int>   // p_nextheld
    var heldHead: int
    var heldTail: int
    ghost var Contents: seq<int>

    ghost predicate Valid()
      reads this, isHeld, nextHeld
    {
      && isHeld.Length == nextHeld.Length && NoDup(Contents) && IsList(nextHeld[..], heldHead, Contents)
      && (Contents != [] ==> heldTail == Contents[|Contents| - 1])
      && forall i :: 0 <= i < isHeld.Length ==> (isHeld[i] <==> i in Contents)
    }

    /** No task is held up at start-up. */
    constructor (size: nat)
      ensures Valid() && Contents == [] && isHeld.Length == size && fresh(isHeld) && fresh(nextHeld)
    {
      isHeld, nextHeld := new bool[size](_ => false), new int[size];
      heldHead, heldTail, Contents := NIL, NIL, [];
    }

    lemma HeadNil()
      requires Valid()
      ensures heldHead == NIL <==> Contents == []
    {
    }

    /** The list shares no column with the table. */
    ghost predicate Apart(t: Table) {
      t.next != nextHeld && t.callerq != nextHeld && t.sendlink != nextHeld && t.wait != nextHeld
      && t.rr != nextHeld && t.head != nextHeld && t.tail != nextHeld
    }

    /** The first half of interrupt(): called while it would compete with a process switch. */
    method Hold(rp: int)
      requires Valid() && 0 <= rp < isHeld.Length
      modifies this, isHeld, nextHeld
      ensures Valid() && Contents == if rp in old(Contents) then old(Contents) else old(Contents) + [rp]
    {
      if !isHeld[rp] {
        ListAppend(nextHeld[..], heldHead, Contents, rp);
        NoDupAppend(Contents, rp);
        isHeld[rp] := true;
        if heldHead != NIL {
          nextHeld[heldTail] := rp;
        } else {
          heldHead := rp;
        }
        heldTail := rp;
        nextHeld[rp] := NIL;
        Contents := Contents + [rp];
      }
    }

    /** Take the first held task off the list. */
    method Take() returns (rp: int)
      requires Valid() && Contents != []
      modifies this, isHeld
      ensures Valid() && rp == old(Contents)[0] && Contents == old(Contents)[1..]
    {
      rp := heldHead;
      ListDropHead(nextHeld[..], heldHead, Contents);
      assert forall y :: y in Contents <==> y == Contents[0] || y in Contents[1..];
      assert Contents[0] !in Contents[1..];
      heldHead := nextHeld[rp];
      if heldHead == NIL {
        heldTail := NIL;
      }
      isHeld[rp] := false;
      Contents := Contents[1..];
    }
  }

  class Table {
    const nt: int
    const entry: array<Proc>
    const next: array<int>       // p_nextready
    const callerq: array<int>    // p_callerq
    const sendlink: array<int>   // p_sendlink
    const wait: array<int>       // wait_ticks
    const rr: array<int>         // rr_counter
    const head: array<int>       // rdy_head, g1_queue, g2_queue, g3_queue
    const tail: array<int>       // rdy_tail, g1_tail, g2_tail, g3_tail
    var cur: int                 // proc_ptr
    var bill: int                // bill_ptr
    var aging: int               // aging_counter
    var sigProcs: int
    ghost var st: State

    ghost predicate Distinct() {
      && next != callerq && next != sendlink && next != wait && next != rr && next != head && next != tail
      && callerq != sendlink && callerq != wait && callerq != rr && callerq != head && callerq != tail
      && sendlink != wait && sendlink != rr && sendlink != head && sendlink != tail
      && wait != rr && wait != head && wait != tail && rr != head && rr != tail && head != tail
    }

    /** The columns, apart from the links, hold the fields of st. */
    ghost predicate Fields()
      reads this, entry, wait, rr
    {
      && nt == st.nt && entry[..] == st.p && wait[..] == st.wait && rr[..] == st.rr
      && cur == st.cur && bill == st.bill && aging == st.aging && sigProcs == st.sigProcs
    }

    ghost predicate Valid()
      reads this, entry, next, callerq, sendlink, wait, rr, head, tail
    {
      && Distinct() && Fields() && Members(st) && next.Length == entry.Length
      && (forall k :: 0 <= k < QUEUES ==> NoDup(st.q[k]))
      && ReadyRep(next[..], head[..], tail[..], st.q)
      && CallerRep(sendlink[..], callerq[..], st.cq)
    }

    /** A table of unused slots, all queues empty. */
    constructor (nt: int, size: int)
      requires BootSizes(nt, size)
      ensures Valid() && st == StateOf(nt, PartTable(nt, size, 0)) && fresh(entry) && fresh(next) && fresh(callerq)
      ensures fresh(sendlink) && fresh(wait) && fresh(rr) && fresh(head) && fresh(tail)
    {
      this.nt := nt;
      entry := new Proc[size](_ => BLANK);
      next, callerq, sendlink := new int[size], new int[size](_ => NIL), new int[size];
      wait, rr := new int[size](_ => 0), new int[size](_ => 0);
      head, tail := new int[QUEUES](_ => NIL), new int[QUEUES];
      cur, bill, aging, sigProcs := nt - 6, nt - 6, 0, 0;
      st := StateOf(nt, PartTable(nt, size, 0));
      new;
      PartMembers(nt, size, 0, st.cur);
      forall k | 0 <= k < QUEUES ensures st.q[k] == [] { FilterNone(st.p, k, 0); }
      assert entry[..] == st.p;
    }

    /** Start-up: the slots of tasks, servers and INIT are filled and readied in table order; then pick_proc chooses. */
    method StartUp()
      requires Valid() && BootSizes(nt, entry.Length) && st == StateOf(nt, PartTable(nt, entry.Length, 0))
      modifies this, entry, next, wait, head, tail
      ensures Valid() && Members(Boot(nt, entry.Length)) && st == Pick(Boot(nt, entry.Length))
    {
      for i := 0 to entry.Length
        invariant Valid() && st == StateOf(nt, PartTable(nt, entry.Length, i)).(cur := st.cur)
      {
        FillSlot(i);
      }
      TaskQueued(nt, entry.Length);
      PartMembers(nt, entry.Length, entry.Length, st.cur);
      PartMembers(nt, entry.Length, entry.Length, nt - 6);
      assert PartTable(nt, entry.Length, entry.Length) == BootTable(nt, entry.Length);
      PickProc();
    }

    /** Slot i gets its priority and is readied if it may run. */
    method FillSlot(i: int)
      requires Valid() && BootSizes(nt, entry.Length) && st.Slot(i)
        && st == StateOf(nt, PartTable(nt, entry.Length, i)).(cur := st.cur)
      modifies this`st, this`cur, entry, next, head, tail
      ensures Valid() && st == StateOf(nt, PartTable(nt, entry.Length, i + 1)).(cur := st.cur)
    {
      ghost var s := st;
      var e := BLANK.(priority := BootPriority(nt, i));
      OneMoreReady(nt, entry.Length, i, s, e);
      entry[i] := e;
      st := s.(p := s.p[i := e]);
      UnusedNotReady(s, i);
      if e.Live() { Ready(i); }
    }

    static lemma UnusedNotReady(s: State, i: int)
      requires Members(s) && s.Slot(i) && !s.p[i].Live()
      ensures NotReady(s.q, i)
    {
      forall k | 0 <= k < QUEUES ensures i !in s.q[k] {
        assert forall j :: 0 <= j < |s.q[k]| ==> Member(s.p, k, s.q[k][j]);
      }
    }

    static lemma TaskQueued(nt: int, size: int)
      requires BootSizes(nt, size)
      ensures Boot(nt, size).q[TASK_Q] != []
    {
      var p := BootTable(nt, size);
      FilterMembers(p, TASK_Q, 0);
      assert Belongs(p, TASK_Q, nt - 2);
      assert nt - 2 in Filter(p, TASK_Q, 0);
    }

    // -------------------------------------------------------------- pick_proc

    method PickProc()
      requires Valid()
      modifies this, wait
      ensures Valid() && st == Pick(old(st))
    {
      if head[TASK_Q] != NIL {
        cur := head[TASK_Q];
      } else if head[SERVER_Q] != NIL {
        cur := head[SERVER_Q];
      } else if head[G1_Q] != NIL {
        cur := head[G1_Q];
        bill := cur;
      } else if head[G2_Q] != NIL {
        PickLongest();
        return;
      } else if head[G3_Q] != NIL {
        cur := head[G3_Q];
        bill := cur;
      } else if head[USER_Q] != NIL {
        cur := head[USER_Q];
        bill := cur;
      } else {
        bill := nt - 6;
        cur := nt - 6;
      }
      st := Pick(st);
    }

    /** Group 2: the process that has waited longest, whose counter starts again. */
    method PickLongest()
      requires Valid() && st.q[G2_Q] != [] && st.q[TASK_Q] == st.q[SERVER_Q] == st.q[G1_Q] == []
      modifies this`st, this`cur, this`bill, wait
      ensures Valid() && st == Pick(old(st))
    {
      hide IsList, NoDup;
      cur := Longest();
      bill := cur;
      wait[cur] := 0;
      st := Pick(st);
    }

    /** The scan of group 2 for the first process with the largest counter. */
    method Longest() returns (rp: int)
      requires Valid() && st.q[G2_Q] != []
      ensures InTable(st.q[G2_Q], |st.wait|) && rp == MaxFrom(st.wait, st.q[G2_Q], st.q[G2_Q][0])
    {
      ghost var q := st.q[G2_Q];
      ghost var j := 0;
      assert IsList(next[..], head[G2_Q], q);
      rp := head[G2_Q];
      var current := rp;
      while current != NIL
        invariant 0 <= j <= |q| && 0 <= rp < |st.wait|
        invariant current == if j < |q| then q[j] else NIL
        invariant InTable(q[j..], |st.wait|)
        invariant MaxFrom(st.wait, q, q[0]) == MaxFrom(st.wait, q[j..], rp)
        decreases |q| - j
      {
        LinkAt(next[..], head[G2_Q], q, j);
        if wait[current] > wait[rp] {
          rp := current;
        }
        assert q[j..][0] == q[j] && q[j..][1..] == q[j + 1..];
        current := next[current];
        j := j + 1;
      }
    }

    // -------------------------------------------------------------- ready

    /** Put i, which is on no queue, at the end of queue k. */
    method AppendReady(k: int, i: int)
      requires Valid() && st.Slot(i) && NotReady(st.q, i) && Member(st.p, k, i) && 0 <= k < QUEUES
      modifies this`st, next, head, tail
      ensures Valid() && st == old(st).(q := old(st).q[k := old(st).q[k] + [i]])
    {
      ghost var s, n, h, t := st, next[..], head[..], tail[..];
      assert IsList(n, h[k], s.q[k]) && NotReady(s.q[k := []], i);
      ListAppend(n, h[k], s.q[k], i);
      if head[k] != NIL {
        next[tail[k]] := i;
      } else {
        head[k] := i;
      }
      tail[k] := i;
      next[i] := NIL;
      st := s.(q := s.q[k := s.q[k] + [i]]);
      assert next[..] == if s.q[k] == [] then n[i := NIL] else n[s.q[k][|s.q[k]| - 1] := i][i := NIL];
      assert s.q[k] != [] ==> s.q[k][|s.q[k]| - 1] in s.q[k];
      OtherQueuesKept(s, n, next[..], h, t, k, i);
      NoDupAppend(s.q[k], i);
      Replaced(s, st, k);
    }

    /** Walk of group 3 to the first entry with no smaller estimate; j is its position. */
    method FindPlace(i: int) returns (prev: int, ghost j: nat)
      requires Valid() && st.Slot(i)
      ensures j <= |st.q[G3_Q]| && prev == (if j == 0 then NIL else st.q[G3_Q][j - 1])
      ensures InTable(st.q[G3_Q], |st.p|)
        && InsertByEstimate(st.p, st.q[G3_Q], i) == st.q[G3_Q][..j] + [i] + st.q[G3_Q][j..]
    {
      ghost var q := st.q[G3_Q];
      j := 0;
      prev := NIL;
      var current := head[G3_Q];
      assert IsList(next[..], head[G3_Q], q);
      while current != NIL && entry[current].estimate < entry[i].estimate
        invariant 0 <= j <= |q|
        invariant prev == (if j == 0 then NIL else q[j - 1]) && current == (if j < |q| then q[j] else NIL)
        invariant forall m :: 0 <= m < j ==> st.p[q[m]].estimate < st.p[i].estimate
        decreases |q| - j
      {
        LinkAt(next[..], head[G3_Q], q, j);
        prev := current;
        current := next[current];
        j := j + 1;
      }
      InsertAt(st.p, q, i, j);
    }

    /** Link i, which is on no queue, in after position j of group 3. */
    method InsertAfter(prev: int, ghost j: nat, i: int)
      requires Valid() && st.Slot(i) && NotReady(st.q, i) && Member(st.p, G3_Q, i)
      requires j < |st.q[G3_Q]| && prev == st.q[G3_Q][j]
      modifies this`st, next, tail
      ensures Valid() && st ==
        old(st).(q := old(st).q[G3_Q := old(st).q[G3_Q][..j + 1] + [i] + old(st).q[G3_Q][j + 1..]])
    {
      ghost var s, n, h, t := st, next[..], head[..], tail[..];
      ghost var q := s.q[G3_Q];
      assert IsList(n, h[G3_Q], q) && NotReady(s.q[G3_Q := []], i);
      ListInsert(n, h[G3_Q], q, j, i);
      LinkAt(n, h[G3_Q], q, j);
      next[i] := next[prev];
      next[prev] := i;
      if next[i] == NIL {
        tail[G3_Q] := i;
      }
      st := s.(q := s.q[G3_Q := q[..j + 1] + [i] + q[j + 1..]]);
      assert prev in q;
      OtherQueuesKept(s, n, next[..], h, t, G3_Q, i);
      InsertedMembers(s.p, q, j, i);
      Replaced(s, st, G3_Q);
    }

    static lemma InsertedMembers(p: seq<Proc>, q: seq<int>, j: nat, i: int)
      requires NoDup(q) && j < |q| && i !in q && Member(p, G3_Q, i)
        && forall m :: 0 <= m < |q| ==> Member(p, G3_Q, q[m])
      ensures NoDup(q[..j + 1] + [i] + q[j + 1..])
      ensures forall y :: y in q[..j + 1] + [i] + q[j + 1..] ==> Member(p, G3_Q, y)
    {
      var r := q[..j + 1] + [i] + q[j + 1..];
      forall a | 0 <= a < |r| ensures r[a] == if a <= j then q[a] else if a == j + 1 then i else q[a - 1] {}
    }

    /** Put i, which is on no queue, in front of queue k. */
    method PushReady(k: int, i: int)
      requires Valid() && st.Slot(i) && NotReady(st.q, i) && Member(st.p, k, i) && 0 <= k < QUEUES
      modifies this`st, next, head, tail
      ensures Valid() && st == old(st).(q := old(st).q[k := [i] + old(st).q[k]])
    {
      ghost var s, n, h, t := st, next[..], head[..], tail[..];
      assert IsList(n, h[k], s.q[k]) && NotReady(s.q[k := []], i);
      ListPush(n, h[k], s.q[k], i);
      if head[k] == NIL {
        tail[k] := i;
      }
      next[i] := head[k];
      head[k] := i;
      st := s.(q := s.q[k := [i] + s.q[k]]);
      OtherQueuesKept(s, n, next[..], h, t, k, i);
      NoDupAppend(s.q[k], i);
      Replaced(s, st, k);
    }

    /** Replacing one queue by a duplicate-free one of the same class keeps the shape. */
    static lemma Replaced(s: State, t: State, k: int)
      requires Members(s) && 0 <= k < QUEUES && (forall m :: 0 <= m < QUEUES ==> NoDup(s.q[m]))
      requires |t.q| == QUEUES && t == s.(q := s.q[k := t.q[k]]) && NoDup(t.q[k])
      requires forall y :: y in t.q[k] ==> Member(s.p, k, y)
      ensures Members(t) && forall m :: 0 <= m < QUEUES ==> NoDup(t.q[m])
    {
      forall m, j | 0 <= m < QUEUES && 0 <= j < |t.q[m]| ensures Member(t.p, m, t.q[m][j]) {
        if m == k { assert t.q[k][j] in t.q[k]; } else { assert Member(s.p, m, s.q[m][j]); }
      }
    }

    /** Sorted insertion into group 3. */
    method InsertReady(i: int)
      requires Valid() && st.Slot(i) && NotReady(st.q, i) && st.p[i].Queue() == G3_Q && st.p[i].Live()
      modifies this`st, next, head, tail
      ensures Valid() && st == old(st).(q := old(st).q[G3_Q := InsertByEstimate(old(st).p, old(st).q[G3_Q], i)])
    {
      hide NoDup, IsList;
      ghost var q := st.q[G3_Q];
      ghost var j;
      var prev;
      prev, j := FindPlace(i);
      if prev == NIL {
        assert q[..0] + [i] + q[0..] == [i] + q;
        PushReady(G3_Q, i);
      } else {
        InsertAfter(prev, j - 1, i);
      }
    }

    method Ready(i: int)
      requires Valid() && st.Slot(i) && NotReady(st.q, i) && st.p[i].Live()
      modifies this`st, this`cur, next, head, tail
      ensures Valid() && st == KernelState.Ready(old(st), i)
    {
      hide NoDup, IsList, InsertByEstimate;
      ListHead(next[..], head[TASK_Q], st.q[TASK_Q]);
      var e := entry[i];
      if e.priority == Task {
        var wasEmpty := head[TASK_Q] == NIL;
        AppendReady(TASK_Q, i);
        if wasEmpty {
          cur := i;
          st := st.(cur := i);
        }
      } else if e.priority == Server {
        AppendReady(SERVER_Q, i);
      } else if e.priority == User && 0 < e.group < 4 {
        if e.group == 1 {
          AppendReady(G1_Q, i);
        } else if e.group == 2 {
          AppendReady(G2_Q, i);
        } else {
          InsertReady(i);
        }
      } else {
        PushReady(USER_Q, i);
      }
    }

    // -------------------------------------------------------------- unready

    method DropHead(k: int)
      requires Valid() && 0 <= k < QUEUES && st.q[k] != []
      modifies this`st, head
      ensures Valid() && st == old(st).(q := old(st).q[k := old(st).q[k][1..]])
    {
      ghost var s := st;
      ListDropHead(next[..], head[k], s.q[k]);
      head[k] := next[head[k]];
      st := s.(q := s.q[k := s.q[k][1..]]);
      assert forall y :: y in s.q[k][1..] ==> y in s.q[k];
      Replaced(s, st, k);
    }

    /** "Search body of queue": the predecessor of i, if i is on queue k behind the head. */
    method FindPrev(k: int, i: int) returns (found: bool, xp: int, ghost j: nat)
      requires Valid() && 0 <= k < QUEUES && st.q[k] != [] && st.q[k][0] != i && i != NIL
      ensures found ==> j + 1 < |st.q[k]| && xp == st.q[k][j] && i == st.q[k][j + 1]
      ensures !found ==> i !in st.q[k]
    {
      ghost var q := st.q[k];
      xp := head[k];
      j := 0;
      assert IsList(next[..], head[k], q);
      while next[xp] != i
        invariant 0 <= j < |q| && xp == q[j] && 0 <= xp < next.Length
        invariant forall m :: 0 <= m <= j ==> q[m] != i
        decreases |q| - j
      {
        LinkAt(next[..], head[k], q, j);
        xp := next[xp];
        if xp == NIL {
          found := false;
          return;
        }
        j := j + 1;
      }
      LinkAt(next[..], head[k], q, j);
      found := true;
    }

    method CutBody(k: int, i: int)
      requires Valid() && 0 <= k < QUEUES && st.q[k] != [] && st.q[k][0] != i && i != NIL
      modifies this`st, next, tail
      ensures Valid() && st == old(st).(q := old(st).q[k := Remove(old(st).q[k], i)])
    {
      hide NoDup, Remove;
      ghost var j;
      var found, xp;
      found, xp, j := FindPrev(k, i);
      if found {
        UnlinkAfter(k, xp, j);
      } else {
        RemoveAbsent(st.q[k], i);
        assert st.q[k := Remove(st.q[k], i)] == st.q;
      }
    }

    /** Unlink the successor of xp, which is at position j. */
    method UnlinkAfter(k: int, xp: int, ghost j: nat)
      requires Valid() && 0 <= k < QUEUES && j + 1 < |st.q[k]| && xp == st.q[k][j]
      modifies this`st, next, tail
      ensures Valid() && st == old(st).(q := old(st).q[k := Remove(old(st).q[k], old(st).q[k][j + 1])])
    {
      ghost var s, n, h, t := st, next[..], head[..], tail[..];
      ghost var u := s.(q := s.q[k := Remove(s.q[k], s.q[k][j + 1])]);
      assert IsList(n, h[k], s.q[k]);
      LinkAt(n, h[k], s.q[k], j);
      LinkAt(n, h[k], s.q[k], j + 1);
      var i := next[xp];
      next[xp] := next[next[xp]];
      if tail[k] == i {
        tail[k] := xp;
      }
      Unlinked(s, u, k, j, n, next[..], h, t);
      assert tail[..] == t[k := u.q[k][|u.q[k]| - 1]];
      st := u;
    }

    static lemma Unlinked(s: State, u: State, k: int, j: nat, n: seq<int>, r: seq<int>, h: seq<int>, t: seq<int>)
      requires Members(s) && 0 <= k < QUEUES && ReadyRep(n, h, t, s.q)
        && (forall m :: 0 <= m < QUEUES ==> NoDup(s.q[m]))
      requires j + 1 < |s.q[k]| && InTable(s.q[k], |n|) && r == n[s.q[k][j] := n[s.q[k][j + 1]]]
      requires u == s.(q := s.q[k := Remove(s.q[k], s.q[k][j + 1])])
      ensures u.q[k] != [] && u.q[k][|u.q[k]| - 1] == (if t[k] == s.q[k][j + 1] then s.q[k][j] else t[k])
      ensures Members(u) && (forall m :: 0 <= m < QUEUES ==> NoDup(u.q[m]))
      ensures ReadyRep(r, h, t[k := u.q[k][|u.q[k]| - 1]], u.q)
    {
      hide Remove, IsList;
      var q := s.q[k];
      assert IsList(n, h[k], q);
      ListUnlink(n, r, h[k], q, j, u.q[k]);
      assert q[j] in q;
      OnlyHere(s, k, q[j]);
      OtherQueuesKept(s, n, r, h, t, k, q[j]);
      UnlinkedRep(s, u, k, r, h, t, t[k := u.q[k][|u.q[k]| - 1]]);
    }

    static lemma UnlinkedRep(s: State, u: State, k: int, r: seq<int>, h: seq<int>, t: seq<int>, t2: seq<int>)
      requires Members(s) && 0 <= k < QUEUES && |h| == |t| == QUEUES && (forall m :: 0 <= m < QUEUES ==> NoDup(s.q[m]))
      requires forall m :: 0 <= m < QUEUES ==> (s.q[m] != [] ==> t[m] == s.q[m][|s.q[m]| - 1])
      requires forall m :: 0 <= m < QUEUES && m != k ==> IsList(r, h[m], s.q[m])
      requires |u.q| == QUEUES && u == s.(q := s.q[k := u.q[k]]) && NoDup(u.q[k])
        && forall y :: y in u.q[k] ==> y in s.q[k]
      requires IsList(r, h[k], u.q[k]) && u.q[k] != [] && |t2| == |t| && t2 == t[k := u.q[k][|u.q[k]| - 1]]
      ensures Members(u) && (forall m :: 0 <= m < QUEUES ==> NoDup(u.q[m])) && ReadyRep(r, h, t2, u.q)
    {
      forall y | y in u.q[k] ensures Member(s.p, k, y) {
        var a :| 0 <= a < |s.q[k]| && s.q[k][a] == y;
        assert Member(s.p, k, s.q[k][a]);
      }
      Replaced(s, u, k);
    }

    static lemma OnlyHere(s: State, k: int, i: int)
      requires Members(s) && 0 <= k < QUEUES && i in s.q[k]
      ensures NotReady(s.q[k := []], i)
    {
      var a :| 0 <= a < |s.q[k]| && s.q[k][a] == i;
      assert Member(s.p, k, s.q[k][a]);
      forall m | 0 <= m < QUEUES && m != k ensures i !in s.q[m] {
        assert forall b :: 0 <= b < |s.q[m]| ==> Member(s.p, m, s.q[m][b]);
      }
    }

    /** Take i off queue k, where it may or may not be; whether it was the head. */
    method UnreadyFromQueue(i: int, k: int) returns (wasHead: bool)
      requires Valid() && st.Slot(i) && 0 <= k < QUEUES
      modifies this`st, next, head, tail
      ensures Valid() && st == old(st).(q := old(st).q[k := Remove(old(st).q[k], i)])
      ensures wasHead == (old(st).q[k] != [] && old(st).q[k][0] == i)
    {
      hide NoDup, IsList;
      ListHead(next[..], head[k], st.q[k]);
      if head[k] == NIL {
        assert st.q[k := Remove(st.q[k], i)] == st.q;
        return false;
      }
      wasHead := head[k] == i;
      if wasHead { DropHead(k); } else { CutBody(k, i); }
    }

    method Unready(i: int)
      requires Valid() && st.Slot(i)
      modifies this, wait, next, head, tail
      ensures Valid() && st == KernelState.Unready(old(st), i)
    {
      hide NoDup, IsList, ReadyRep, CallerRep, Remove, Pick;
      var e := entry[i];
      if e.priority == User && 0 < e.group < 4 {
        UnreadyFromGroup(i, e.Queue());
        if i == cur { PickProc(); }
      } else {
        var wasHead := UnreadyFromQueue(i, e.Queue());
        if wasHead && (e.priority != Task || i == cur) { PickProc(); }
      }
    }

    method UnreadyFromGroup(i: int, k: int)
      requires Valid() && st.Slot(i) && 0 <= k < QUEUES
      modifies this`st, next, head, tail
      ensures Valid() && st == old(st).(q := old(st).q[k := Remove(old(st).q[k], i)])
    {
      assert IsList(next[..], head[k], st.q[k]);
      if head[k] == NIL {
        assert st.q[k := Remove(st.q[k], i)] == st.q;
        return;
      }
      if head[k] == i {
        DropHead(k);
        assert IsList(next[..], head[k], st.q[k]);
        if head[k] == NIL {
          tail[k] := NIL;
        }
        return;
      }
      CutBody(k, i);
    }

    // -------------------------------------------------------------- sched

    /** The running process, at the head of group 1, moves behind the tail and starts a new quantum. */
    method RotateGroup1()
      requires Valid() && st.Slot(st.cur) && |st.q[G1_Q]| >= 2 && st.cur == st.q[G1_Q][0]
      modifies this`st, rr, next, head, tail
      ensures Valid() && st ==
        old(st).(q := old(st).q[G1_Q := Rotate(old(st).q[G1_Q])], rr := old(st).rr[old(st).cur := 0])
    {
      ghost var s, n, h, t := st, next[..], head[..], tail[..];
      ghost var q := s.q[G1_Q];
      assert IsList(n, h[G1_Q], q);
      ListRotate(n, h[G1_Q], q);
      var current := cur;
      var nextRr := next[head[G1_Q]];
      if tail[G1_Q] != current {
        next[tail[G1_Q]] := current;
      }
      tail[G1_Q] := current;
      next[current] := NIL;
      rr[current] := 0;
      head[G1_Q] := nextRr;
      st := s.(q := s.q[G1_Q := Rotate(q)], rr := s.rr[current := 0]);
      assert next[..] == n[q[|q| - 1] := current][current := NIL];
      Rotated(s, G1_Q, n, next[..], h, t);
    }

    /** The head of the user queue moves behind its tail. */
    method RotateUser()
      requires Valid() && st.q[USER_Q] != []
      modifies this`st, next, head, tail
      ensures Valid() && st == old(st).(q := old(st).q[USER_Q := Rotate(old(st).q[USER_Q])])
    {
      ghost var s, n, h, t := st, next[..], head[..], tail[..];
      ghost var q := s.q[USER_Q];
      assert IsList(n, h[USER_Q], q);
      if |q| >= 2 { ListRotate(n, h[USER_Q], q); }
      next[tail[USER_Q]] := head[USER_Q];
      tail[USER_Q] := head[USER_Q];
      head[USER_Q] := next[head[USER_Q]];
      next[tail[USER_Q]] := NIL;
      st := s.(q := s.q[USER_Q := Rotate(q)]);
      assert next[..] == n[q[|q| - 1] := q[0]][q[0] := NIL];
      Rotated(s, USER_Q, n, next[..], h, t);
    }

    static lemma Rotated(s: State, k: int, n: seq<int>, r: seq<int>, h: seq<int>, t: seq<int>)
      requires Members(s) && 0 <= k < QUEUES && s.q[k] != [] && ReadyRep(n, h, t, s.q)
        && forall m :: 0 <= m < QUEUES ==> NoDup(s.q[m])
      requires InTable(s.q[k], |n|) && r == n[s.q[k][|s.q[k]| - 1] := s.q[k][0]][s.q[k][0] := NIL]
      ensures forall m :: 0 <= m < QUEUES && m != k ==> IsList(r, h[m], s.q[m])
      ensures NoDup(Rotate(s.q[k])) && QueueMembers(s.p, s.q[k := Rotate(s.q[k])])
    {
      var q := s.q[k];
      assert q[0] in q && q[|q| - 1] in q;
      OnlyHere(s, k, q[0]);
      OtherQueuesKept(s, n, r, h, t, k, q[0]);
      RotateMembers(q);
      RotateKeepsMembers(s, s.(q := s.q[k := Rotate(q)]), k);
    }

    method Sched()
      requires Valid() && st.Slot(st.cur) && CurOk(st)
      modifies this, wait, rr, next, head, tail
      ensures Valid() && st == ReadyQueues.Sched(old(st))
    {
      ghost var s := st;
      var current := cur;
      if entry[current].priority == User && entry[current].group == 1 {
        ghost var q := s.q[G1_Q];
        assert IsList(next[..], head[G1_Q], q);
        if q != [] { LinkAt(next[..], head[G1_Q], q, 0); }
        if head[G1_Q] != NIL && next[head[G1_Q]] != NIL {
          RotateGroup1();
          PickProc();
        }
        return;
      }
      assert IsList(next[..], head[USER_Q], s.q[USER_Q]);
      if head[USER_Q] == NIL { return; }
      RotateUser();
      PickProc();
    }

    // -------------------------------------------------------------- flags

    /** The idiom `if (p_flags == 0) unready(rp); p_flags |= ...`. */
    method BlockAs(i: int, e: Proc)
      requires Valid() && st.Slot(i) && SameClass(e, st.p[i]) && e.Live()
      modifies this, entry, wait, next, head, tail
      ensures Valid() && st == Block(old(st), i, e)
    {
      ghost var s := st;
      if entry[i].Runnable() { Unready(i); }
      entry[i] := e;
      st := Block(s, i, e);
    }

    /** The idiom `p_flags &= ~...; if (p_flags == 0) ready(rp)`. */
    method UnblockAs(i: int, e: Proc)
      requires Valid() && st.Slot(i) && SameClass(e, st.p[i]) && e.Live() && (e.Runnable() ==> NotReady(st.q, i))
      modifies this`st, this`cur, entry, next, head, tail
      ensures Valid() && st == Unblock(old(st), i, e)
    {
      ghost var s := st;
      UpdateKeepsMembers(s, i, e);
      entry[i] := e;
      st := s.(p := s.p[i := e]);
      if e.Runnable() { Ready(i); }
    }

    static lemma BlockedNotReady(s: State, i: int)
      requires Exact(s) && s.Slot(i) && !s.p[i].Runnable()
      ensures NotReady(s.q, i)
    {
      forall k | 0 <= k < QUEUES ensures i !in s.q[k] {
        assert i in s.q[k] <==> Belongs(s.p, k, i);
      }
    }

    // -------------------------------------------------------------- mini_send

    /** The `while (TRUE)` walk of the deadlock check. It ends because the senders form no cycle. */
    method DeadlockWalk(c: int, d: int) returns (locked: bool)
      requires Valid() && Acyclic(st.p) && st.Slot(c) && st.Slot(d) && st.p[d].sending
      ensures locked <==> Reaches(st.p, st.p[d].sendto, c)
    {
      var nextPtr := entry[d].sendto;
      assert Stops(st.p, d);
      ghost var k: nat :| Ends(st.p, d, k);
      k := k - 1;
      while true
        invariant k >= 0 && Ends(st.p, nextPtr, k)
        invariant Reaches(st.p, nextPtr, c) <==> Reaches(st.p, st.p[d].sendto, c)
        decreases k
      {
        if nextPtr == c {
          assert Path(st.p, c, c, 0);
          return true;
        }
        WalkIsReach(st.p, nextPtr, c);
        if entry[nextPtr].sending {
          nextPtr := entry[nextPtr].sendto;
          k := k - 1;
        } else {
          return false;
        }
      }
    }

    /** The end of the caller queue of d, which is not empty. */
    method LastCaller(d: int) returns (x: int)
      requires Valid() && st.Slot(d) && st.cq[d] != []
      ensures x == st.cq[d][|st.cq[d]| - 1]
    {
      ghost var q := st.cq[d];
      assert IsList(sendlink[..], callerq[d], q);
      ghost var j := 0;
      x := callerq[d];
      while sendlink[x] != NIL
        invariant 0 <= j < |q| && x == q[j] && 0 <= x < sendlink.Length
        decreases |q| - j
      {
        LinkAt(sendlink[..], callerq[d], q, j);
        x := sendlink[x];
        j := j + 1;
      }
      LinkAt(sendlink[..], callerq[d], q, j);
    }

    static lemma OtherCallersKept(cq: seq<seq<int>>, sl: seq<int>, r: seq<int>, cl: seq<int>, d: int, c: int)
      requires Apart(cq) && CallerRep(sl, cl, cq) && |r| == |sl| && 0 <= d < |cq|
      requires forall x :: 0 <= x < |sl| && x != c && x !in cq[d] ==> r[x] == sl[x]
      requires c in cq[d] || forall m :: 0 <= m < |cq| ==> c !in cq[m]
      ensures forall m :: 0 <= m < |cq| && m != d ==> IsList(r, cl[m], cq[m])
    {
      forall m | 0 <= m < |cq| && m != d ensures IsList(r, cl[m], cq[m]) {
        forall j | 0 <= j < |cq[m]| ensures r[cq[m][j]] == sl[cq[m][j]] {
          assert cq[m][j] in cq[m];
        }
        ListFrame(sl, r, cl[m], cq[m]);
      }
    }

    /** "Put in on the destination's queue": c, which is on no caller queue, joins that of d. */
    method JoinCallers(c: int, d: int)
      requires Valid() && st.Slot(c) && st.Slot(d) && st.p[c].Live()
      requires Apart(st.cq) && forall m :: 0 <= m < |st.cq| ==> c !in st.cq[m]
      modifies this`st, sendlink, callerq
      ensures Valid() && st == old(st).(cq := old(st).cq[d := old(st).cq[d] + [c]])
    {
      hide ReadyRep;
      ghost var s, sl, cl := st, sendlink[..], callerq[..];
      assert IsList(sl, cl[d], s.cq[d]);
      assert c !in s.cq[d];
      ListAppend(sl, cl[d], s.cq[d], c);
      if callerq[d] == NIL {
        callerq[d] := c;
      } else {
        var last := LastCaller(d);
        sendlink[last] := c;
        assert last in s.cq[d];
      }
      sendlink[c] := NIL;
      st := s.(cq := s.cq[d := s.cq[d] + [c]]);
      OtherCallersKept(s.cq, sl, sendlink[..], cl, d, c);
      assert LiveCallers(st.p, st.cq);
    }

    /** The checks of mini_send. */
    method CheckSend(c: int, d: int) returns (status: Status)
      requires Valid() && Acyclic(st.p) && st.Slot(c) && (st.p[c].priority == User || st.Slot(d))
      ensures status == SendStatus(st, c, d)
    {
      if entry[c].priority == User && d != nt + 1 && d != nt { return BadDestination; }
      if entry[d].priority == Unused { return BadDestination; }
      if entry[d].sending {
        var locked := DeadlockWalk(c, d);
        if locked { return Locked; }
      }
      return Ok;
    }

    /** Destination is not waiting: block and queue the caller. */
    method BlockSender(c: int, d: int)
      requires Valid() && Callers(st.p, st.cq) && st.Slot(c) && st.Slot(d) && st.p[c].Live() && !st.p[c].sending
      modifies this, entry, callerq, sendlink, wait, next, head, tail
      ensures Valid() && st == QueueSender(old(st), c, d)
    {
      forall m | 0 <= m < |st.cq| ensures c !in st.cq[m] { assert c in st.cq[m] <==> SendsTo(st.p, c, m); }
      CallersApart(st.p, st.cq);
      BlockAs(c, entry[c].(sending := true, sendto := d));
      JoinCallers(c, d);
    }

    method MiniSend(c: int, d: int) returns (status: Status)
      requires Valid() && Exact(st) && MsgInv(st.nt, st.p, st.cq) && st.Slot(c) && !st.p[c].sending
      requires st.p[c].priority == User || st.Slot(d)
      requires st.p[c].Live() || (SendStatus(st, c, d) == Ok && Waits(st.p[d], c))
      modifies this, entry, callerq, sendlink, wait, next, head, tail
      ensures Valid() && status == SendStatus(old(st), c, d) && st == Messages.MiniSend(old(st), c, d)
    {
      status := CheckSend(c, d);
      if status != Ok { return; }
      var e := entry[d];
      if e.receiving && !e.sending && (e.getfrom == ANY || e.getfrom == c) {
        SoundSlot(st.nt, st.p, st.cq, d);
        BlockedNotReady(st, d);
        UnblockAs(d, e.(receiving := false));
      } else {
        BlockSender(c, d);
      }
    }

    // -------------------------------------------------------------- mini_rec

    /** The search of mini_rec: the first acceptable sender x on the queue of c and its predecessor, or NIL. */
    method SearchCallers(c: int, src: int) returns (x: int, prev: int, ghost j: int)
      requires Valid() && st.Slot(c)
      ensures j == FindSender(st.cq[c], src)
      ensures x == (if j < 0 then NIL else st.cq[c][j]) && (j > 0 ==> prev == st.cq[c][j - 1])
    {
      ghost var q := st.cq[c];
      assert IsList(sendlink[..], callerq[c], q);
      x := callerq[c];
      prev := NIL;
      j := 0;
      while x != NIL
        invariant 0 <= j <= |q| && x == (if j < |q| then q[j] else NIL) && (j > 0 ==> prev == q[j - 1])
        invariant forall m :: 0 <= m < j ==> !Accepts(src, q[m])
        decreases |q| - j
      {
        LinkAt(sendlink[..], callerq[c], q, j);
        if src == ANY || src == x { return; }
        prev := x;
        x := sendlink[x];
        j := j + 1;
      }
      j := -1;
    }

    /** The queue of c without its entry j, reached through the head or through the entry before it. */
    static lemma CallerTaken(cq: seq<seq<int>>, sl: seq<int>, cl: seq<int>, c: int, j: nat, r: seq<int>, h: seq<int>,
                             t: seq<int>)
      requires Apart(cq) && CallerRep(sl, cl, cq) && 0 <= c < |cq| && j < |cq[c]|
      requires 0 <= cq[c][j] < |sl| && (j > 0 ==> 0 <= cq[c][j - 1] < |sl|) && t == Remove(cq[c], cq[c][j])
      requires r == (if j == 0 then sl else sl[cq[c][j - 1] := sl[cq[c][j]]])
      requires h == (if j == 0 then cl[c := sl[cq[c][j]]] else cl)
      ensures CallerRep(r, h, cq[c := t])
    {
      var q := cq[c];
      assert IsList(sl, cl[c], q);
      if j == 0 {
        ListDropHead(sl, cl[c], q);
      } else {
        ListUnlink(sl, r, cl[c], q, j - 1, t);
        assert q[j - 1] in q;
        OtherCallersKept(cq, sl, r, cl, c, q[j - 1]);
      }
    }

    /** Take sender x, at position j, off the caller queue of c. */
    method TakeCaller(c: int, x: int, prev: int, ghost j: nat)
      requires Valid() && st.Slot(c) && j < |st.cq[c]| && x == st.cq[c][j]
        && (j > 0 ==> prev == st.cq[c][j - 1]) && Apart(st.cq)
      modifies this`st, sendlink, callerq
      ensures Valid() && st == old(st).(cq := old(st).cq[c := Remove(old(st).cq[c], x)])
    {
      hide ReadyRep, Remove;
      ghost var s, sl, cl := st, sendlink[..], callerq[..];
      assert IsList(sl, cl[c], s.cq[c]);
      LinkAt(sl, cl[c], s.cq[c], j);
      if j > 0 { LinkAt(sl, cl[c], s.cq[c], j - 1); }
      assert x == callerq[c] <==> j == 0;
      if x == callerq[c] {
        callerq[c] := sendlink[x];
      } else {
        sendlink[prev] := sendlink[x];
      }
      CallerTaken(s.cq, sl, cl, c, j, sendlink[..], callerq[..], Remove(s.cq[c], x));
      RemoveSubset(s.cq[c], x);
      st := s.(cq := s.cq[c := Remove(s.cq[c], x)]);
      assert LiveCallers(st.p, st.cq);
    }

    static lemma RemoveSubset(q: seq<int>, x: int)
      ensures forall y :: y in Remove(q, x) ==> y in q
    {
    }

    method MiniRec(c: int, src: int)
      requires Valid() && Mid(st, c, src)
      modifies this, entry, callerq, sendlink, wait, next, head, tail
      ensures Valid() && st == Messages.MiniRec(old(st), c, src)
    {
      hide IsList, NoDup, ReadyRep;
      if !entry[c].sending {
        ghost var j;
        var x, prev;
        x, prev, j := SearchCallers(c, src);
        if x != NIL {
          Accept(c, x, prev, j);
          return;
        }
        if entry[c].intBlocked && (src == ANY || src == nt - 1) {
          SetEntry(c, entry[c].(intBlocked := false));
          return;
        }
      }
      Await(c, src);
    }

    /** Take the message of sender x and deblock it. */
    method Accept(c: int, x: int, prev: int, ghost j: nat)
      requires Valid() && Exact(st) && Callers(st.p, st.cq) && st.Slot(c)
      requires j < |st.cq[c]| && x == st.cq[c][j] && (j > 0 ==> prev == st.cq[c][j - 1])
      modifies this, entry, callerq, sendlink, next, head, tail
      ensures Valid() && old(st).Slot(x) && old(st).p[x].Live() && st == AcceptSender(old(st), c, x)
    {
      CallersApart(st.p, st.cq);
      assert x in st.cq[c];
      assert SendsTo(st.p, x, c);
      BlockedNotReady(st, x);
      TakeCaller(c, x, prev, j);
      UnblockAs(x, entry[x].(sending := false));
    }

    /** Block the caller; a memory manager that now listens is told of pending signals. */
    method Await(c: int, src: int)
      requires Valid() && SchedInv(st) && Rest(st) && st.Slot(c) && st.p[c].Live() && !st.p[c].receiving
      requires if st.p[c].sending then src == st.p[c].sendto && src != st.Hardware()
        else (forall j :: 0 <= j < |st.cq[c]| ==> !Accepts(src, st.cq[c][j])) &&
             !(st.p[c].intBlocked && RxHardware(st, src))
      modifies this, entry, callerq, sendlink, wait, next, head, tail
      ensures Valid() && st == AwaitMessage(old(st), c, src)
    {
      AwaitBlocks(st, c, src);
      BlockAs(c, entry[c].(receiving := true, getfrom := src));
      if sigProcs > 0 && c == nt && src == ANY {
        Inform();
      }
    }

    // -------------------------------------------------------------- inform

    /** First slot from the servers on with the PENDING flag, or the table size. */
    method FindPending() returns (rp: int)
      requires Valid()
      ensures rp == FirstPending(st.p, st.nt)
    {
      rp := nt;
      while rp < entry.Length && !entry[rp].pending
        invariant nt <= rp <= entry.Length && FirstPending(st.p, st.nt) == FirstPending(st.p, rp)
      {
        rp := rp + 1;
      }
    }

    method Inform()
      requires Valid() && SchedInv(st) && Rest(st) && MmListens(st)
      modifies this, entry, callerq, sendlink, wait, next, head, tail
      ensures Valid() && st == Messages.Inform(old(st))
    {
      hide IsList, NoDup, ReadyRep;
      ghost var s := st;
      var rp := FindPending();
      if rp < entry.Length {
        assert s.p[rp].pending;
        TellMm();
        ForgetPending(rp, |s.p[rp].pendingSet|);
        InformIs(s, st, rp);
        PickProc();
      }
    }

    static lemma InformIs(s: State, t: State, rp: int)
      requires Members(s) && Members(t) && s.p[s.Mm()].Live() && rp == FirstPending(s.p, s.nt) < |s.p|
      requires var u := Deliver(s.(sigProcs := s.sigProcs - 1), s.Mm());
        t == u.(p := u.p[rp := u.p[rp].(pendingSet := {}, pending := false)],
          told := u.told[rp := u.told[rp] + |s.p[rp].pendingSet|])
      ensures Messages.Inform(s) == Pick(t)
    {
      hide Pick, Deliver, FirstPending, Members;
    }

    /** "The ball is now in MM's court"; n is the number of signals handed over. */
    method ForgetPending(rp: int, ghost n: int)
      requires Valid() && st.Slot(rp) && st.p[rp].Live()
      modifies this`st, entry
      ensures Valid()
      ensures st == old(st).(p := old(st).p[rp := old(st).p[rp].(pendingSet := {}, pending := false)],
        told := old(st).told[rp := old(st).told[rp] + n])
    {
      ghost var t := st;
      var e := entry[rp].(pendingSet := {}, pending := false);
      UpdateKeepsMembers(t, rp, e);
      entry[rp] := e;
      st := t.(p := t.p[rp := e], told := t.told[rp := t.told[rp] + n]);
    }

    /** The send of inform, which finds the memory manager listening. */
    method TellMm()
      requires Valid() && SchedInv(st) && Rest(st) && MmListens(st)
      modifies this, entry, callerq, sendlink, wait, next, head, tail
      ensures Valid() && old(st).p[old(st).Mm()].Live()
      ensures st == Deliver(old(st).(sigProcs := old(st).sigProcs - 1), old(st).Mm())
    {
      hide IsList, NoDup, SigInv, Deliver, RrInv, HeldInv;
      InformKeeps(st);
      sigProcs := sigProcs - 1;
      st := st.(sigProcs := sigProcs);
      var status := MiniSend(nt - 1, nt);
      assert status == Ok;
    }

    // -------------------------------------------------------------- sys_call, interrupt

    method SysCall(fn: Function, sd: int) returns (status: Status)
      requires Valid() && Inv(st) && Enabled(st, SysCallStep(fn, sd))
      modifies this, entry, callerq, sendlink, wait, next, head, tail
      ensures Valid() && (status, st) == Messages.SysCall(old(st), fn, sd) && Inv(st)
    {
      ghost var s := st;
      SysCallKeeps(s, fn, sd);
      if !(0 <= sd < entry.Length || sd == ANY) { return BadSource; }
      var rp := cur;
      if entry[rp].priority == User && fn != Both { return NoPermission; }
      RunnerSound(s);
      if fn != Receive {
        if SendStatus(s, rp, sd) == Ok { SendHalfKeeps(s, fn, sd); }
        status := MiniSend(rp, sd);
        if fn == Send || status != Ok { return; }
      }
      MiniRec(rp, sd);
      return Ok;
    }

    method Interrupt(task: int)
      requires Valid() && Inv(st) && IsTask(st.p, task)
      modifies this`st, this`cur, entry, next, head, tail
      ensures Valid() && st == SystemTask.Interrupt(old(st), task) && Inv(st)
    {
      hide IsList, NoDup, MsgInv, SigInv;
      ghost var s := st;
      InterruptKeeps(s, task);
      var e := entry[task];
      if !(e.receiving && !e.sending && (e.getfrom == ANY || e.getfrom == nt - 1)) {
        entry[task] := e.(intBlocked := true);
        st := SystemTask.Interrupt(s, task);
        return;
      }
      BlockedNotReady(s, task);
      var f := e.(receiving := false, intBlocked := false);
      UpdateKeepsMembers(s, task, f);
      entry[task] := f;
      st := s.(p := s.p[task := f]);
      Ready(task);
    }

    /** One interrupt that has to be held. */
    method HoldOne(h: HeldQueue, t: int)
      requires Valid() && Inv(st) && h.Valid() && h.Contents == st.held && h.Apart(this) && IsTask(st.p, t)
      requires h.isHeld.Length == entry.Length
      modifies this`st, h, h.isHeld, h.nextHeld
      ensures Valid() && Inv(st) && h.Valid() && h.Contents == st.held && st == HoldInterrupt(old(st), t)
    {
      hide Inv, NoDup;
      ghost var u := HoldInterrupt(st, t);
      HoldKeeps(st, t);
      assert Members(u);
      hide IsList, ReadyRep, CallerRep, Members;
      h.Hold(t);
      st := u;
    }

    /** Interrupts that arrive while they have to be held. */
    method HoldAll(h: HeldQueue, ts: seq<int>)
      requires Valid() && Inv(st) && h.Valid() && h.Contents == st.held && h.Apart(this) && Tasks(st.p, ts)
      requires h.isHeld.Length == entry.Length
      modifies this`st, h, h.isHeld, h.nextHeld
      ensures Valid() && Inv(st) && h.Valid() && h.Contents == st.held && st == SystemTask.HoldAll(old(st), ts)
    {
      hide Inv, IsList, NoDup, ReadyRep, CallerRep, Members;
      ghost var s := st;
      for i := 0 to |ts|
        invariant Valid() && Inv(st) && h.Valid() && h.Contents == st.held && st.p == s.p && Tasks(st.p, ts[i..])
        invariant SystemTask.HoldAll(st, ts[i..]) == SystemTask.HoldAll(s, ts)
      {
        assert IsTask(st.p, ts[i..][0]) && ts[i..][1..] == ts[i + 1..];
        HoldOne(h, ts[i]);
      }
    }

    /** One round of the flush, during which ts arrive. */
    method UnholdRound(h: HeldQueue, ts: seq<int>)
      requires Valid() && Inv(st) && h.Valid() && h.Contents == st.held != [] && h.Apart(this)
      requires Tasks(st.p, ts) && h.isHeld.Length == entry.Length
      modifies this`st, this`cur, entry, next, head, tail, h, h.isHeld, h.nextHeld
      ensures Valid() && Inv(st) && h.Valid() && h.Contents == st.held
      ensures Members(old(st)) && Tasks(old(st).p, old(st).held) && st == SystemTask.UnholdRound(old(st), ts)
    {
      HeldTasks(st);
      hide Inv, IsList, NoDup, ReadyRep, CallerRep;
      UnholdOne(h);
      HoldAll(h, ts);
    }

    static lemma HeldTasks(s: State)
      requires Inv(s)
      ensures Members(s) && Tasks(s.p, s.held)
    {
      ExactMembers(s);
    }

    static lemma UnholdUnfolds(s: State, arrivals: seq<seq<int>>)
      requires Members(s) && Tasks(s.p, s.held) && AllTasks(s.p, arrivals) && s.held != []
      ensures Tasks(s.p, ThisRound(arrivals))
      ensures var u := SystemTask.UnholdRound(s, ThisRound(arrivals));
        && AllTasks(u.p, LaterRounds(arrivals))
        && SystemTask.Unhold(s, arrivals) == SystemTask.Unhold(u, LaterRounds(arrivals))
    {
      hide Members, SystemTask.UnholdRound;
    }

    /** Flush the held interrupts; arrivals[k] come in during round k. */
    method Unhold(h: HeldQueue, arrivals: seq<seq<int>>)
      requires Valid() && Inv(st) && h.Valid() && h.Contents == st.held != [] && h.Apart(this)
      requires AllTasks(st.p, arrivals) && h.isHeld.Length == entry.Length
      modifies this`st, this`cur, entry, next, head, tail, h, h.isHeld, h.nextHeld
      ensures Valid() && Inv(st) && h.Valid() && h.Contents == []
      ensures Members(old(st)) && Tasks(old(st).p, old(st).held) && st == SystemTask.Unhold(old(st), arrivals)
    {
      hide Inv, IsList, NoDup, ReadyRep, CallerRep, Members, AllTasks, Tasks, SystemTask.UnholdRound, SystemTask.Unhold;
      ghost var s := st;
      var more := arrivals;
      HeldTasks(s);
      h.HeadNil();
      while h.heldHead != NIL
        invariant Valid() && Inv(st) && h.Valid() && h.Contents == st.held && (h.heldHead == NIL <==> h.Contents == [])
        invariant Members(st) && Tasks(st.p, st.held) && AllTasks(st.p, more)
        invariant SystemTask.Unhold(st, more) == SystemTask.Unhold(s, arrivals)
        decreases |more|, |st.held|
      {
        UnholdUnfolds(st, more);
        UnholdRound(h, ThisRound(more));
        more := LaterRounds(more);
        HeldTasks(st);
        h.HeadNil();
      }
      UnholdEmpty(st, more);
    }

    static lemma UnholdEmpty(s: State, arrivals: seq<seq<int>>)
      requires Members(s) && Tasks(s.p, s.held) && AllTasks(s.p, arrivals) && s.held == []
      ensures SystemTask.Unhold(s, arrivals) == s
    {
    }

    /** Repeat the first held interrupt. */
    method UnholdOne(h: HeldQueue)
      requires Valid() && Inv(st) && h.Valid() && h.Contents == st.held != [] && h.Apart(this)
      modifies this`st, this`cur, entry, next, head, tail, h, h.isHeld
      ensures Valid() && Inv(st) && h.Valid() && h.Contents == st.held
      ensures Members(old(st).(held := old(st).held[1..])) && IsTask(old(st).p, old(st).held[0])
      ensures st == SystemTask.Interrupt(old(st).(held := old(st).held[1..]), old(st).held[0])
    {
      hide Inv, IsList, NoDup;
      ghost var u := st;
      HeldHead(u);
      var rp := h.Take();
      st := u.(held := u.held[1..]);
      Interrupt(rp);
    }

    // -------------------------------------------------------------- signals

    method CauseSig(n: int, sig: int)
      requires Valid() && Inv(st) && IsUser(st, n)
      modifies this, entry, callerq, sendlink, wait, next, head, tail
      ensures Valid() && old(st).p[old(st).Mm()].Live() && st == SystemTask.CauseSig(old(st), n, sig) && Inv(st)
    {
      CauseSigKeeps(st, n, sig);
      if sig in entry[n].pendingSet { return; }
      var e := WithSignal(entry[n], sig);
      if entry[n].pending {
        SetEntry(n, e);
        return;
      }
      FirstSignal(n, e.(pending := true, sigPending := true));
    }

    method FirstSignal(n: int, e: Proc)
      requires Valid() && Inv(st) && IsUser(st, n) && !st.p[n].pending && SigOk(e, st.told[n])
        && e.pending && e.sigPending
      requires e == st.p[n].(pending := true, sigPending := true, pendingSet := e.pendingSet, pendcount := e.pendcount)
      modifies this, entry, callerq, sendlink, wait, next, head, tail
      ensures Valid() && old(st).p[old(st).Mm()].Live() && st == SignalFirst(old(st), n, e)
    {
      ghost var s := st;
      BlockForSignal(n, e);
      SignalBlocks(s, n, e, st);
      if entry[nt].receiving && entry[nt].getfrom == ANY {
        Inform();
      }
    }

    method BlockForSignal(n: int, e: Proc)
      requires Valid() && st.Slot(n) && SameClass(e, st.p[n]) && e.Live()
      modifies this, entry, wait, next, head, tail
      ensures Valid() && st == Block(old(st), n, e).(sigProcs := old(st).sigProcs + 1)
    {
      BlockAs(n, e);
      sigProcs := sigProcs + 1;
      st := st.(sigProcs := sigProcs);
    }

    /** An entry changes in place; who may run does not. */
    method SetEntry(n: int, e: Proc)
      requires Valid() && st.Slot(n) && SameClass(e, st.p[n]) && e.Live()
      modifies this`st, entry
      ensures Valid() && st == old(st).(p := old(st).p[n := e])
    {
      ghost var s := st;
      UpdateKeepsMembers(s, n, e);
      entry[n] := e;
      st := s.(p := s.p[n := e]);
    }

    method EndSig(n: int) returns (status: Status)
      requires Valid() && Inv(st) && Enabled(st, EndSigStep(n))
      modifies this`st, this`cur, entry, next, head, tail
      ensures Valid() && (status, st) == SystemTask.EndSig(old(st), n)
    {
      if entry[n].priority == Unused { return BadProcess; }
      if entry[n].pendcount != 0 {
        EndOne(n);
      }
      return Ok;
    }

    /** `--p_pendcount`, and deblock the process when that was its last signal. */
    method EndOne(n: int)
      requires Valid() && Inv(st) && IsUser(st, n) && st.p[n].pendcount != 0
      modifies this`st, this`cur, entry, next, head, tail
      ensures Valid() && st == SystemTask.EndSig(old(st), n).1
    {
      ghost var s := st;
      assert SigOk(s.p[n], s.told[n]);
      BlockedNotReady(s, n);
      var c := entry[n].pendcount - 1;
      st := s.(told := s.told[n := s.told[n] - 1]);
      if c == 0 {
        UnblockAs(n, entry[n].(pendcount := c, sigPending := false));
      } else {
        SetEntry(n, entry[n].(pendcount := c));
      }
    }

    // -------------------------------------------------------------- fork, newmap, exec, exit

    static lemma InvMembers(s: State)
      requires Inv(s)
      ensures Members(s) && forall k :: 0 <= k < QUEUES ==> NoDup(s.q[k])
    {
      ExactMembers(s);
    }

    /** A copied head represents a copied queue. */
    static lemma CallersCopied(sl: seq<int>, cl: seq<int>, cq: seq<seq<int>>, parent: int, child: int)
      requires CallerRep(sl, cl, cq) && 0 <= parent < |cq| && 0 <= child < |cq|
      ensures CallerRep(sl, cl[child := cl[parent]], cq[child := cq[parent]])
    {
    }

    method Fork(parent: int, child: int)
      requires Valid() && Inv(st) && Enabled(st, ForkStep(parent, child))
      modifies this`st, entry, callerq, wait, rr
      ensures Valid() && st == SystemTask.Fork(old(st), parent, child) && Inv(st)
    {
      hide NoDup, IsList, ReadyRep, MsgInv, SigInv, SchedInv;
      ghost var s := st;
      ForkKeeps(s, parent, child);
      InvMembers(SystemTask.Fork(s, parent, child));
      CallersCopied(sendlink[..], callerq[..], s.cq, parent, child);
      entry[child] := entry[parent].(noMap := true, pending := false, sigPending := false, stopped := false,
                                     group := 0, estimate := 0, pendingSet := {}, pendcount := 0);
      callerq[child] := callerq[parent];
      wait[child] := 0;
      rr[child] := 0;
      st := SystemTask.Fork(s, parent, child);
    }

    method NewMap(k: int) returns (status: Status)
      requires Valid() && Inv(st)
      modifies this`st, this`cur, entry, next, head, tail
      ensures Valid() && (status, st) == SystemTask.NewMap(old(st), k)
    {
      if !(0 <= k < entry.Length) { return BadProcess; }
      if !entry[k].Runnable() {
        BlockedNotReady(st, k);
        UnblockAs(k, entry[k].(noMap := false));
      }
      return Ok;
    }

    method Exec(n: int, traced: bool, sigtrap: int)
      requires Valid() && Inv(st) && Enabled(st, ExecStep(n, traced, sigtrap))
      modifies this, entry, callerq, sendlink, wait, next, head, tail
      ensures Valid() && old(st).p[old(st).Mm()].Live() && st == SystemTask.Exec(old(st), n, traced, sigtrap)
    {
      ghost var s := st;
      if traced {
        CauseSigKeepsTarget(s, n, sigtrap);
        CauseSig(n, sigtrap);
      }
      BlockedNotReady(st, n);
      UnblockAs(n, entry[n].(receiving := false));
    }

    /** Take n off the caller queue of d, if it is there. */
    method DropCaller(d: int, n: int)
      requires Valid() && st.Slot(d) && st.Slot(n) && Apart(st.cq)
      modifies this`st, sendlink, callerq
      ensures Valid() && Apart(st.cq) && st == old(st).(cq := old(st).cq[d := Remove(old(st).cq[d], n)])
    {
      ghost var j;
      var x, prev;
      x, prev, j := SearchCallers(d, n);
      RemoveMembers(st.cq[d], n);
      if x != NIL {
        TakeCaller(d, x, prev, j);
      } else {
        assert n !in st.cq[d];
        RemoveAbsent(st.cq[d], n);
        assert st.cq[d := st.cq[d]] == st.cq;
      }
    }

    /** "Check all proc slots to see if the exiting process is queued." */
    method LeaveCallers(n: int)
      requires Valid() && Callers(st.p, st.cq) && st.Slot(n) && st.p[n].sending && st.Slot(st.p[n].sendto)
      modifies this`st, sendlink, callerq
      ensures Valid() && st == old(st).(cq := Unlink(old(st).p, old(st).cq, n))
    {
      hide ReadyRep, Members;
      ghost var s := st;
      CallersApart(s.p, s.cq);
      ghost var d := s.p[n].sendto;
      for rp := 0 to entry.Length
        invariant Valid() && Apart(st.cq)
        invariant st == s.(cq := if d < rp then Unlink(s.p, s.cq, n) else s.cq)
      {
        if callerq[rp] != NIL {
          assert rp != d ==> n !in s.cq[rp] by { assert n in s.cq[rp] <==> SendsTo(s.p, n, rp); }
          if rp != d { RemoveAbsent(s.cq[rp], n); }
          DropCaller(rp, n);
          assert rp != d ==> st.cq == (if d < rp then Unlink(s.p, s.cq, n) else s.cq);
        } else {
          assert IsList(sendlink[..], callerq[rp], st.cq[rp]);
          assert n in s.cq[d] <==> SendsTo(s.p, n, d);
        }
      }
    }

    /** unready neither looks at caller queues nor at signal counts. */
    static lemma UnreadyIgnores(s: State, t: State, i: int)
      requires Members(s) && Members(t) && s.Slot(i) && t == s.(cq := t.cq, told := t.told, sigProcs := t.sigProcs)
      ensures KernelState.Unready(t, i) ==
        KernelState.Unready(s, i).(cq := t.cq, told := t.told, sigProcs := t.sigProcs)
    {
    }

    static lemma ExitIs(s: State, n: int, u: State)
      requires Members(s) && Inv(s) && Enabled(s, ExitStep(n)) && (s.p[n].sending ==> s.Slot(s.p[n].sendto))
      requires u == if s.p[n].Runnable() then KernelState.Unready(s, n) else s
      ensures Xit(s, n) == u.(p := s.p[n := Emptied(s.p[n])], cq := Unlink(s.p, s.cq, n), told := s.told[n := 0],
                              sigProcs := if s.p[n].pending then s.sigProcs - 1 else s.sigProcs)
    {
      var t := s.(cq := Unlink(s.p, s.cq, n), told := s.told[n := 0],
                  sigProcs := if s.p[n].pending then s.sigProcs - 1 else s.sigProcs);
      assert LiveCallers(t.p, t.cq);
      UnreadyIgnores(s, t, n);
    }

    method Exit(n: int)
      requires Valid() && Inv(st) && Enabled(st, ExitStep(n))
      modifies this, entry, callerq, sendlink, wait, next, head, tail
      ensures Valid() && (old(st).p[n].sending ==> old(st).Slot(old(st).p[n].sendto)) && st == Xit(old(st), n)
    {
      hide IsList, NoDup, ReadyRep;
      ghost var s := st;
      SoundSlot(s.nt, s.p, s.cq, n);
      if entry[n].Runnable() { Unready(n); }
      ghost var u := st;
      if entry[n].sending { LeaveCallers(n); }
      ExitIs(s, n, u);
      ExitShape(s, n);
      EmptySlot(n);
    }

    static lemma ExitShape(s: State, n: int)
      requires Inv(s) && Members(s) && Enabled(s, ExitStep(n))
      ensures s.p[n].sending ==> s.Slot(s.p[n].sendto)
      ensures Members(Xit(s, n))
    {
      ExitKeeps(s, n);
      ExactMembers(Xit(s, n));
    }

    /** The rest of do_xit: signals, flags and priority of the slot. */
    method EmptySlot(n: int)
      requires Valid() && st.Slot(n)
      requires Members(st.(p := st.p[n := Emptied(st.p[n])]))
      modifies this`st, this`sigProcs, entry
      ensures Valid()
      ensures st == old(st).(p := old(st).p[n := Emptied(old(st).p[n])], told := old(st).told[n := 0],
                             sigProcs := if old(st).p[n].pending then old(st).sigProcs - 1 else old(st).sigProcs)
    {
      ghost var s := st;
      if entry[n].pending { sigProcs := sigProcs - 1; }
      entry[n] := Emptied(entry[n]);
      st := s.(p := s.p[n := entry[n]], told := s.told[n := 0], sigProcs := sigProcs);
    }

    // -------------------------------------------------------------- tracing, setgroup

    method Stop(n: int)
      requires Valid() && IsUser(st, n)
      modifies this, entry, wait, next, head, tail
      ensures Valid() && st == SystemTask.Stop(old(st), n)
    {
      BlockAs(n, entry[n].(stopped := true));
    }

    method Resume(n: int)
      requires Valid() && Exact(st) && IsUser(st, n) && st.p[n].stopped
      modifies this`st, this`cur, entry, next, head, tail
      ensures Valid() && st == SystemTask.Resume(old(st), n)
    {
      BlockedNotReady(st, n);
      UnblockAs(n, entry[n].(stopped := false));
    }

    method SetGroup(n: int, group: int, estimate: int) returns (status: Status)
      requires Valid() && Inv(st) && Enabled(st, SetGroupStep(n, group, estimate))
      modifies this`st, entry, wait, rr
      ensures Valid() && (status, st) == SystemTask.SetGroup(old(st), n, group, estimate)
    {
      hide IsList, NoDup, ReadyRep;
      ghost var s := st;
      if entry[n].priority != User { return Invalid; }
      SetGroupShape(s, n, group, estimate);
      entry[n] := entry[n].(group := group, estimate := if group == 3 then estimate else 100);
      wait[n] := 0;
      rr[n] := 0;
      st := SystemTask.SetGroup(s, n, group, estimate).1;
      return Ok;
    }

    static lemma SetGroupShape(s: State, n: int, group: int, estimate: int)
      requires Inv(s) && Enabled(s, SetGroupStep(n, group, estimate))
      ensures Members(SystemTask.SetGroup(s, n, group, estimate).1)
    {
      SetGroupKeeps(s, n, group, estimate);
      ExactMembers(SystemTask.SetGroup(s, n, group, estimate).1);
    }

    // -------------------------------------------------------------- ticks

    /** update_aging_for_group2, first loop */
    method AgeWaiting()
      requires Valid()
      modifies this`st, wait
      ensures Valid() && InTable(old(st).q[G2_Q], |old(st).wait|)
      ensures st == old(st).(wait := AgeQueue(old(st).wait, old(st).q[G2_Q], old(st).cur))
    {
      hide CallerRep;
      ghost var s := st;
      ghost var q := s.q[G2_Q];
      ListHead(next[..], head[G2_Q], q);
      var rp := head[G2_Q];
      ghost var j := 0;
      while rp != NIL
        invariant 0 <= j <= |q| && rp == (if j < |q| then q[j] else NIL) && wait.Length == |s.wait|
        invariant next[..] == old(next[..]) && InTable(q[j..], wait.Length)
        invariant AgeQueue(wait[..], q[j..], s.cur) == AgeQueue(s.wait, q, s.cur)
        decreases |q| - j
      {
        LinkAt(next[..], head[G2_Q], q, j);
        assert q[j..][0] == rp && q[j..][1..] == q[j + 1..];
        ghost var w := wait[..];
        if rp != cur {
          wait[rp] := wait[rp] + 1;
          if wait[rp] > MAX_WAIT_TICKS {
            wait[rp] := MAX_WAIT_TICKS;
          }
        }
        assert wait[..] == if rp == s.cur then w else w[rp := Cap(w[rp] + 1)];
        rp := next[rp];
        j := j + 1;
      }
      st := s.(wait := wait[..]);
    }

    /** update_aging_for_group2, second loop */
    method AgeAllBlocked()
      requires Valid()
      modifies this`st, wait
      ensures Valid() && st == old(st).(wait := AgeBlocked(old(st).wait, old(st).p, 0))
    {
      ghost var s := st;
      for rp := 0 to entry.Length
        invariant wait.Length == |s.wait| && AgeBlocked(wait[..], s.p, rp) == AgeBlocked(s.wait, s.p, 0)
      {
        var e := entry[rp];
        ghost var w := wait[..];
        if e.priority == User && e.group == 2 && (e.sending || e.receiving) {
          wait[rp] := wait[rp] + 1;
          if wait[rp] > MAX_WAIT_TICKS {
            wait[rp] := MAX_WAIT_TICKS;
          }
        }
        assert wait[..] == if AgesBlocked(s.p[rp]) then w[rp := Cap(w[rp] + 1)] else w;
      }
      st := s.(wait := wait[..]);
    }

    method HandleClockTick()
      requires Valid() && Inv(st)
      modifies this, wait, rr, next, head, tail
      ensures Valid() && st == Tick(old(st)) && Inv(st)
    {
      hide MsgInv, SigInv, SchedInv, IsList, NoDup, CallerRep, ReadyRep;
      TickKeeps(st);
      CountQuantum();
      aging := aging + 1;
      st := st.(aging := aging);
      if aging >= AGING_TICK {
        AgeWaiting();
        AgeAllBlocked();
        aging := 0;
        st := st.(aging := 0);
      }
    }

    method CountQuantum()
      requires Valid() && SchedInv(st)
      modifies this, wait, rr, next, head, tail
      ensures Valid() && st == TickQuantum(old(st))
    {
      ghost var s := st;
      var rp := cur;
      if entry[rp].priority == User && entry[rp].group == 1 {
        var n := rr[rp] + 1;
        rr[rp] := if n >= RR_QUANTUM then 0 else n;
        st := s.(rr := rr[..]);
        if n >= RR_QUANTUM {
          SchedFrame(s, st);
          Sched();
        }
      }
    }
  }
}
