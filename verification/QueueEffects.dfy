/**
 What the scheduling primitives do, in terms of the queues and the fields alone: where ready() puts a process, what
 unready() leaves, whom pick_proc chooses, and what a rotation and a clock tick change.
 */
module QueueEffects {
  import opened Lists
  import opened KernelState
  import opened ReadyQueues

  // ---------------------------------------------------------------- whom pick_proc chooses

  /** Queue k is the first of the order that is not empty. */
  predicate FirstReady(q: seq<seq<int>>, n: nat)
    requires |q| == QUEUES
  {
    n < |PICK_ORDER| && q[PICK_ORDER[n]] != [] && forall m :: 0 <= m < n ==> q[PICK_ORDER[m]] == []
  }

  /** r runs the process that pick_proc has to choose in s: idle, the first of group 2 with the largest counter, which
      starts again at 0, or the head of the first queue. */
  ghost predicate Picked(s: State, r: State)
    requires Members(s)
  {
    && r == s.(cur := r.cur, bill := r.bill, wait := r.wait, picks := r.picks)
    && ((forall k :: 0 <= k < QUEUES ==> s.q[k] == []) ==>
          r == s.(cur := s.IdleSlot(), bill := s.IdleSlot()))
    && (forall n: nat :: FirstReady(s.q, n) ==> PickedFrom(s, r, PICK_ORDER[n]))
  }

  ghost predicate PickedFrom(s: State, r: State, k: int)
    requires s.Wf() && 0 <= k < QUEUES && s.q[k] != []
  {
    && r.bill == (if k == TASK_Q || k == SERVER_Q then s.bill else r.cur)
    && if k == G2_Q then
         && InTable(s.q[k], |s.wait|) && 0 <= r.cur < |s.wait| && FirstLargest(s.wait, s.q[k], r.cur)
         && r.wait == s.wait[r.cur := 0] && r.picks == s.picks + [r.cur]
       else r.cur == s.q[k][0] && r.wait == s.wait && r.picks == s.picks
  }

  lemma PickEffect(s: State)
    requires Members(s)
    ensures Picked(s, Pick(s))
  {
    forall n: nat | FirstReady(s.q, n) ensures PickedFrom(s, Pick(s), PICK_ORDER[n]) { PickOrder(s, n); }
  }

  // ---------------------------------------------------------------- ready

  /** Queue k is where a process with these fields belongs. */
  predicate Home(e: Proc, k: int) {
    || (k == TASK_Q && e.priority == Task)
    || (k == SERVER_Q && e.priority == Server)
    || (k == G1_Q && e.priority == User && e.group == 1)
    || (k == G2_Q && e.priority == User && e.group == 2)
    || (k == G3_Q && e.priority == User && e.group == 3)
    || (k == USER_Q && e.priority == User && !(1 <= e.group <= 3))
  }

  /** r is q with i in it: in group 3 before the first estimate that is not smaller, in the user queue in front, in
      the others at the end. */
  ghost predicate JoinedBy(p: seq<Proc>, k: int, q: seq<int>, i: int, r: seq<int>) {
    if k == USER_Q then r == [i] + q
    else if k == G3_Q then exists j :: InsertedAt(p, q, i, j, r)
    else r == q + [i]
  }

  ghost predicate InsertedAt(p: seq<Proc>, q: seq<int>, i: int, j: int, r: seq<int>) {
    && InTable(q, |p|) && 0 <= i < |p| && 0 <= j <= |q| && r == q[..j] + [i] + q[j..]
    && (forall a :: 0 <= a < j ==> p[q[a]].estimate < p[i].estimate)
    && (j < |q| ==> p[q[j]].estimate >= p[i].estimate)
  }

  /** i has been made ready: it is on the queue where it belongs, and runs if it is a task and no other was ready. */
  ghost predicate Readied(s: State, r: State, i: int)
    requires s.Wf() && s.Slot(i)
  {
    && r == s.(q := r.q, cur := if s.p[i].priority == Task && s.q[TASK_Q] == [] then i else s.cur)
    && |r.q| == QUEUES
    && forall k :: 0 <= k < QUEUES ==>
         if Home(s.p[i], k) then JoinedBy(s.p, k, s.q[k], i, r.q[k]) else r.q[k] == s.q[k]
  }

  lemma {:induction false} InsertPlace(p: seq<Proc>, q: seq<int>, i: int) returns (j: nat)
    requires 0 <= i < |p| && InTable(q, |p|)
    ensures InsertedAt(p, q, i, j, InsertByEstimate(p, q, i))
  {
    if q == [] || p[q[0]].estimate >= p[i].estimate {
      j := 0;
    } else {
      var k := InsertPlace(p, q[1..], i);
      j := k + 1;
      InsertedBehind(p, q, i, k, InsertByEstimate(p, q[1..], i));
    }
  }

  lemma InsertedBehind(p: seq<Proc>, q: seq<int>, i: int, k: nat, r: seq<int>)
    requires q != [] && InTable(q, |p|) && InsertedAt(p, q[1..], i, k, r) && p[q[0]].estimate < p[i].estimate
    ensures InsertedAt(p, q, i, k + 1, [q[0]] + r)
  {
    assert q[..k + 1] == [q[0]] + q[1..][..k] && q[k + 1..] == q[1..][k..];
    assert forall a :: 0 < a < k + 1 ==> q[a] == q[1..][a - 1];
  }

  lemma ReadyEffect(s: State, i: int)
    requires Members(s) && s.Slot(i) && s.p[i].Live()
    ensures Readied(s, Ready(s, i), i)
  {
    var k := s.p[i].Queue();
    QueueInTable(s, G3_Q);
    if k == G3_Q { var j := InsertPlace(s.p, s.q[k], i); }
  }

  // ---------------------------------------------------------------- unready

  /** r is q without the first i, in the same order. */
  ghost predicate LeftBy(q: seq<int>, i: int, r: seq<int>) {
    if i !in q then r == q
    else exists j :: 0 <= j < |q| && q[j] == i && i !in q[..j] && r == q[..j] + q[j + 1..]
  }

  /** After unready another process is chosen: a task has to head its queue and run, a server or a user without a group
      has to head its queue, and a user in a group has to run. */
  predicate ChoiceDue(s: State, i: int)
    requires s.Wf() && s.Slot(i)
  {
    match s.p[i].priority
    case Task => s.q[TASK_Q] != [] && s.q[TASK_Q][0] == i && i == s.cur
    case Server => s.q[SERVER_Q] != [] && s.q[SERVER_Q][0] == i
    case User => if 1 <= s.p[i].group <= 3 then i == s.cur else s.q[USER_Q] != [] && s.q[USER_Q][0] == i
    case _ => false
  }

  /** i has been made unready: it has left its queue, and if a choice is due somebody else has been picked. */
  ghost predicate Unreadied(s: State, r: State, i: int)
    requires s.Wf() && s.Slot(i)
  {
    && |r.q| == QUEUES && Members(s.(q := r.q))
    && (forall k :: 0 <= k < QUEUES ==> if Home(s.p[i], k) then LeftBy(s.q[k], i, r.q[k]) else r.q[k] == s.q[k])
    && if ChoiceDue(s, i) then Picked(s.(q := r.q), r) else r == s.(q := r.q)
  }

  lemma {:induction false} FirstOf(q: seq<int>, i: int) returns (j: nat)
    requires i in q
    ensures j < |q| && q[j] == i && i !in q[..j]
  {
    if q[0] == i {
      j := 0;
    } else {
      var k := FirstOf(q[1..], i);
      j := k + 1;
      assert q[..j] == [q[0]] + q[1..][..k];
    }
  }

  lemma RemoveEffect(q: seq<int>, i: int)
    ensures LeftBy(q, i, Remove(q, i))
  {
    if i in q {
      var j := FirstOf(q, i);
      assert forall a :: 0 <= a < j ==> q[a] in q[..j];
      RemoveAt(q, j);
    } else {
      RemoveAbsent(q, i);
    }
  }

  lemma UnreadyEffect(s: State, i: int)
    requires Members(s) && s.Slot(i) && s.p[i].Live()
    ensures Unreadied(s, Unready(s, i), i)
  {
    hide Picked, LeftBy, Pick;
    var k := s.p[i].Queue();
    RemoveEffect(s.q[k], i);
    var t := s.(q := s.q[k := Remove(s.q[k], i)]);
    TakenOutMembers(s, t, k, i);
    PickEffect(t);
  }

  lemma TakenOutMembers(s: State, t: State, k: int, i: int)
    requires Members(s) && 0 <= k < QUEUES && t == s.(q := s.q[k := Remove(s.q[k], i)])
    ensures Members(t)
  {
    forall m, j | 0 <= m < QUEUES && 0 <= j < |t.q[m]| ensures Member(t.p, m, t.q[m][j]) {
      assert t.q[m][j] in s.q[m];
      var a :| 0 <= a < |s.q[m]| && s.q[m][a] == t.q[m][j];
      assert Member(s.p, m, s.q[m][a]);
    }
  }

  // ---------------------------------------------------------------- setting and clearing flags

  /** Slot i has become e, which is not runnable; if it was ready it has been made unready first. */
  ghost predicate BlockedAs(s: State, r: State, i: int, e: Proc)
    requires s.Wf() && s.Slot(i)
  {
    && r.p == s.p[i := e]
    && if s.p[i].Runnable() then Unreadied(s, r.(p := s.p), i) else r == s.(p := r.p)
  }

  /** Slot i has become e, and has been made ready if no flag is left. */
  ghost predicate FreedAs(s: State, r: State, i: int, e: Proc)
    requires s.Wf() && s.Slot(i)
  {
    if e.Runnable() then Readied(s.(p := s.p[i := e]), r, i) else r == s.(p := s.p[i := e])
  }

  lemma BlockEffect(s: State, i: int, e: Proc)
    requires Members(s) && s.Slot(i) && s.p[i].Live()
    ensures BlockedAs(s, Block(s, i, e), i, e)
  {
    if s.p[i].Runnable() {
      UnreadyEffect(s, i);
      assert Block(s, i, e).(p := s.p) == Unready(s, i);
    }
  }

  lemma UnblockEffect(s: State, i: int, e: Proc)
    requires Members(s) && s.Slot(i) && SameClass(e, s.p[i]) && e.Live()
    ensures FreedAs(s, Unblock(s, i, e), i, e)
  {
    UpdateKeepsMembers(s, i, e);
    if e.Runnable() { ReadyEffect(s.(p := s.p[i := e]), i); }
  }

  // ---------------------------------------------------------------- sched

  /** The queue whose head has had its turn: that of group 1 if one of its processes runs, otherwise the user queue. */
  function TurnQueue(s: State): int
    requires s.Wf() && s.Slot(s.cur)
  {
    if s.p[s.cur].priority == User && s.p[s.cur].group == 1 then G1_Q else USER_Q
  }

  /** The head of that queue goes to its end, in group 1 with a new quantum, and somebody is picked; a group-1 process
      that is alone, or an empty user queue, stays as it is. */
  lemma SchedEffect(s: State)
    requires Members(s) && s.Slot(s.cur)
    ensures var k := TurnQueue(s); var q := s.q[k];
      if |q| < (if k == G1_Q then 2 else 1) then Sched(s) == s
      else
        var t := s.(q := s.q[k := q[1..] + [q[0]]], rr := if k == G1_Q then s.rr[s.cur := 0] else s.rr);
        Members(t) && Picked(t, Sched(s))
  {
    var k := TurnQueue(s);
    if |s.q[k]| >= (if k == G1_Q then 2 else 1) {
      var t := s.(q := s.q[k := Rotate(s.q[k])], rr := if k == G1_Q then s.rr[s.cur := 0] else s.rr);
      RotateKeepsMembers(s, t, k);
      PickEffect(t);
    }
  }
}
