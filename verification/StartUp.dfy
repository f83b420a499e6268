/**
 The state the system starts in: every task, every server and INIT are ready, on the queues their priorities select.
 */
module StartUp {
  import opened Lists
  import opened KernelState
  import opened ReadyQueues

  /** The slots of queue k from i on, in table order. */
  function Filter(p: seq<Proc>, k: int, i: nat): (r: seq<int>)
    requires i <= |p|
    decreases |p| - i
  {
    if i == |p| then []
    else if p[i].Live() && p[i].Runnable() && p[i].Queue() == k then [i] + Filter(p, k, i + 1)
    else Filter(p, k, i + 1)
  }

  lemma {:induction false} FilterMembers(p: seq<Proc>, k: int, i: nat)
    requires i <= |p|
    ensures NoDup(Filter(p, k, i))
    ensures forall y :: y in Filter(p, k, i) <==> i <= y && Belongs(p, k, y)
    decreases |p| - i
  {
    if i < |p| {
      FilterMembers(p, k, i + 1);
      var t := Filter(p, k, i + 1);
      assert i !in t;
      NoDupAppend(t, i);
    }
  }

  const BLANK: Proc := Proc(Unused, false, false, false, false, false, false, ANY, ANY, false, {}, 0, 0, 0)

  /** What slot i is at start-up: the tasks, MM and FS, INIT in the first user slot, and unused slots behind it. */
  function BootPriority(nt: int, i: int): Priority {
    if i == nt - 1 || i == nt - 6 then Idle
    else if i < nt then Task
    else if i <= nt + 1 then Server
    else if i == nt + 2 then User
    else Unused
  }

  predicate BootSizes(nt: int, size: int) {
    6 <= nt && nt + 2 < size <= ANY
  }

  function BootTable(nt: int, size: int): (p: seq<Proc>)
    requires BootSizes(nt, size)
    ensures |p| == size
    ensures forall i :: 0 <= i < size ==> p[i] == BLANK.(priority := BootPriority(nt, i))
  {
    seq(size, i => BLANK.(priority := BootPriority(nt, i)))
  }

  /** The state with process table p in which everybody who may run is queued in table order. */
  function StateOf(nt: int, p: seq<Proc>): State {
    State(nt, p, [Filter(p, 0, 0), Filter(p, 1, 0), Filter(p, 2, 0), Filter(p, 3, 0), Filter(p, 4, 0), Filter(p, 5, 0)],
          seq(|p|, _ => []), nt - 6, nt - 6, seq(|p|, _ => 0), seq(|p|, _ => 0), 0, 0, seq(|p|, _ => 0), [], [])
  }

  /** After start-up every task, every server and INIT are ready; pick_proc is still to choose. */
  function Boot(nt: int, size: int): (s: State)
    requires BootSizes(nt, size)
  {
    StateOf(nt, BootTable(nt, size))
  }

  // ---------------------------------------------------------------- readying slot after slot

  /** The table when the slots below i have been set up. */
  function PartTable(nt: int, size: int, i: int): (p: seq<Proc>)
    requires BootSizes(nt, size)
    ensures |p| == size
    ensures forall j :: 0 <= j < size ==> p[j] == if j < i then BLANK.(priority := BootPriority(nt, j)) else BLANK
  {
    seq(size, j => if j < i then BLANK.(priority := BootPriority(nt, j)) else BLANK)
  }

  lemma {:induction false} FilterNone(p: seq<Proc>, k: int, i: nat)
    requires i <= |p| && forall m :: i <= m < |p| ==> !Belongs(p, k, m)
    ensures Filter(p, k, i) == []
    decreases |p| - i
  {
    if i < |p| {
      assert !Belongs(p, k, i);
      FilterNone(p, k, i + 1);
    }
  }

  lemma {:induction false} FilterAppend(p: seq<Proc>, k: int, j: nat, i: nat, e: Proc)
    requires j <= i < |p| && forall m :: i <= m < |p| ==> !p[m].Live()
    ensures Filter(p[i := e], k, j) ==
      Filter(p, k, j) + (if e.Live() && e.Runnable() && e.Queue() == k then [i] else [])
    decreases i - j
  {
    if j < i {
      FilterAppend(p, k, j + 1, i, e);
    } else {
      FilterNone(p, k, i);
      FilterNone(p, k, i + 1);
      FilterNone(p[i := e], k, i + 1);
    }
  }

  /** Nobody is on the user queue before INIT. */
  lemma NoUserYet(nt: int, size: int, i: int)
    requires BootSizes(nt, size) && 0 <= i <= nt + 2
    ensures Filter(PartTable(nt, size, i), USER_Q, 0) == []
  {
    FilterNone(PartTable(nt, size, i), USER_Q, 0);
  }

  lemma PartMembers(nt: int, size: int, i: int, cur: int)
    requires BootSizes(nt, size) && 0 <= i <= size
    ensures Members(StateOf(nt, PartTable(nt, size, i)).(cur := cur))
  {
    var p := PartTable(nt, size, i);
    var s := StateOf(nt, p);
    forall k | 0 <= k < QUEUES ensures NoDup(s.q[k]) && forall y :: y in s.q[k] <==> Belongs(p, k, y) {
      assert s.q[k] == Filter(p, k, 0);
      FilterMembers(p, k, 0);
    }
    ExactMembers(s.(cur := cur));
  }

  lemma NextPart(nt: int, size: int, i: int)
    requires BootSizes(nt, size) && 0 <= i < size
    ensures PartTable(nt, size, i + 1) == PartTable(nt, size, i)[i := BLANK.(priority := BootPriority(nt, i))]
  {
  }

  lemma UnusedSlotFilled(s: State, i: int, e: Proc)
    requires Members(s) && s.Slot(i) && !s.p[i].Live() && e.Runnable()
    ensures Members(s.(p := s.p[i := e]))
  {
    var u := s.(p := s.p[i := e]);
    forall k, j | 0 <= k < QUEUES && 0 <= j < |u.q[k]| ensures Member(u.p, k, u.q[k][j]) {
      assert Member(s.p, k, s.q[k][j]);
    }
  }

  /** One more slot: the queues of the longer table are the old ones, with the slot added as ready() adds it. */
  lemma OneMoreReady(nt: int, size: int, i: int, s: State, e: Proc)
    requires BootSizes(nt, size) && 0 <= i < size && e == BLANK.(priority := BootPriority(nt, i))
    requires s == StateOf(nt, PartTable(nt, size, i)).(cur := s.cur)
    ensures var u, t := s.(p := s.p[i := e]), StateOf(nt, PartTable(nt, size, i + 1)).(cur := s.cur);
      Members(u) && if e.Live() then Ready(u, i) == t.(cur := Ready(u, i).cur) else u == t
  {
    hide Filter;
    var p := PartTable(nt, size, i);
    var u, t := s.(p := s.p[i := e]), StateOf(nt, PartTable(nt, size, i + 1)).(cur := s.cur);
    NextPart(nt, size, i);
    PartMembers(nt, size, i, s.cur);
    assert forall m :: i <= m < |p| ==> !p[m].Live();
    UnusedSlotFilled(s, i, e);
    if i <= nt + 2 { NoUserYet(nt, size, i); }
    forall k | 0 <= k < QUEUES
      ensures t.q[k] == s.q[k] + (if e.Live() && e.Queue() == k then [i] else [])
    {
      FilterAppend(p, k, 0, i, e);
    }
    assert t.q[USER_Q] == [i] || !(e.Live() && e.Queue() == USER_Q);
    var r := if e.Live() then Ready(u, i).q else u.q;
    assert |r| == |t.q| && forall k :: 0 <= k < |r| ==> r[k] == t.q[k];
  }
}
