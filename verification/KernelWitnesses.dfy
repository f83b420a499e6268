/**
 States that runs from start-up do reach: users in scheduling groups, pending signals, and the calls by which a
 caller that is not careful breaks what the kernel otherwise keeps.
 */
module KernelWitnesses {
  import opened Lists
  import opened KernelState
  import opened SendGraph
  import opened ReadyQueues
  import opened Messages
  import opened Rendezvous
  import opened Signals
  import opened SystemTask
  import opened KernelRuns
  import opened KernelTheorem
  import opened StartUp

  // ---------------------------------------------------------------- extending runs

  lemma RunExtends(run: seq<State>, steps: seq<Step>, st: Step, t: State)
    requires Run(run, steps) && Follows(run[|steps|], st, t)
    ensures Run(run + [t], steps + [st])
  {
    var r, e := run + [t], steps + [st];
    forall j | 0 <= j < |e| ensures Follows(r[j], e[j], r[j + 1]) {
      if j < |steps| { assert Follows(run[j], steps[j], run[j + 1]); }
    }
  }

  lemma ReachableStep(s: State, st: Step, t: State)
    requires Reachable(s) && Follows(s, st, t)
    ensures Reachable(t)
  {
    hide Run, Follows, Started;
    var nt, size, run, steps :| ReachedBy(nt, size, run, steps, s);
    RunLength(run, steps);
    RunExtends(run, steps, st, t);
    assert ReachedBy(nt, size, run + [t], steps + [st], t);
  }

  /** The first state after start-up: a task runs, nobody is blocked, and INIT is a ready user. */
  ghost predicate AtStart(nt: int, size: int, s: State) {
    && BootSizes(nt, size) && s.Wf() && s.nt == nt && s.p == BootTable(nt, size) && TaskRuns(s)
    && (forall d :: 0 <= d < size ==> s.cq[d] == [])
  }

  lemma StartReachable(nt: int, size: int) returns (s: State)
    requires BootSizes(nt, size)
    ensures Reachable(s) && Inv(s) && AtStart(nt, size, s)
  {
    BootInv(nt, size);
    s := Pick(Boot(nt, size));
    FilterMembers(s.p, TASK_Q, 0);
    assert Belongs(s.p, TASK_Q, nt - 2);
    assert s.q[TASK_Q] == Filter(s.p, TASK_Q, 0);
    assert nt - 2 in s.q[TASK_Q];
    assert s.q[TASK_Q][0] in s.q[TASK_Q];
    assert Run([s], []);
    assert ReachedBy(nt, size, [s], [], s);
  }

  // ---------------------------------------------------------------- users in groups, and signals

  /** INIT forks; the child has the lowest slot behind it and no memory map yet. */
  lemma ForkedReachable(nt: int, size: int) returns (s: State)
    requires BootSizes(nt, size) && nt + 3 < size
    ensures Reachable(s) && Inv(s) && s.Wf() && s.nt == nt && |s.p| == size && TaskRuns(s)
    ensures s.p[nt + 2] == BLANK.(priority := User) && s.p[nt + 3] == BLANK.(priority := User, noMap := true)
    ensures s.sigProcs == 0 && !s.p[nt].receiving
  {
    var b := StartReachable(nt, size);
    s := Apply(b, ForkStep(nt + 2, nt + 3));
    ReachableStep(b, ForkStep(nt + 2, nt + 3), s);
    ReachableInv(s);
    SignalAccounting(s, nt + 2);
    assert PendingSlots(s.p) == {};
  }

  lemma GroupChild(s: State, n: int)
    requires Inv(s) && TaskRuns(s) && IsUser(s, n) && !s.p[n].Runnable()
    ensures Enabled(s, SetGroupStep(n, 1, 0))
    ensures var t := Apply(s, SetGroupStep(n, 1, 0));
      t.p == s.p[n := s.p[n].(group := 1, estimate := 100)] && t.cur == s.cur
        && t.sigProcs == s.sigProcs && t.nt == s.nt
  {
    hide SchedInv, MsgInv, SigInv;
  }

  lemma MapChild(s: State, n: int)
    requires Inv(s) && Members(s) && TaskRuns(s) && IsUser(s, n) && s.p[n].group == 1 && s.p[n].noMap
    requires s.p[n].(noMap := false).Runnable()
    ensures var t := Apply(s, NewMapStep(n));
      t.p == s.p[n := s.p[n].(noMap := false)] && t.cur == s.cur && t.sigProcs == s.sigProcs && t.nt == s.nt
  {
    hide SchedInv, MsgInv, SigInv, Members;
  }

  /** The child joins group 1 while it is blocked, and is ready once it has its map. */
  lemma GroupedReachable(nt: int, size: int) returns (s: State)
    requires BootSizes(nt, size) && nt + 3 < size
    ensures Reachable(s) && Inv(s) && s.Wf() && s.nt == nt && |s.p| == size && TaskRuns(s) && s.sigProcs == 0
    ensures s.p[nt + 2] == BLANK.(priority := User)
      && s.p[nt + 3] == BLANK.(priority := User, group := 1, estimate := 100)
    ensures !s.p[nt].receiving
  {
    hide Inv, Apply, Reachable, Members;
    var n := nt + 3;
    var a := ForkedReachable(nt, size);
    GroupChild(a, n);
    var b := Apply(a, SetGroupStep(n, 1, 0));
    ReachableStep(a, SetGroupStep(n, 1, 0), b);
    ReachableInv(b);
    InvMembers(b);
    MapChild(b, n);
    s := Apply(b, NewMapStep(n));
    ReachableStep(b, NewMapStep(n), s);
    ReachableInv(s);
    InvMembers(s);
  }

  lemma InvMembers(s: State)
    requires Inv(s)
    ensures Members(s) && s.Wf()
  {
    ExactMembers(s);
  }

  /** The first signal of a process, while the memory manager is not listening. */
  lemma SignalOne(s: State, n: int, sig: int)
    requires Inv(s) && Members(s) && TaskRuns(s) && IsUser(s, n) && n != s.Mm() && !s.p[s.Mm()].receiving
    requires !s.p[n].pending && s.p[n].pendingSet == {}
    ensures var t := Apply(s, SignalStep(n, sig));
      && t.sigProcs == s.sigProcs + 1 && |t.p| == |s.p|
      && t.p[n] == WithSignal(s.p[n], sig).(pending := true, sigPending := true)
      && forall i :: 0 <= i < |s.p| && i != n ==> t.p[i] == s.p[i]
  {
    hide SchedInv, MsgInv, SigInv, Members;
  }

  lemma InGroup(s: State, n: int)
    requires Inv(s) && IsUser(s, n) && s.p[n].Runnable() && s.p[n].group == 1
    ensures s.Wf() && n in s.q[G1_Q]
  {
    assert n in s.q[G1_Q] <==> Belongs(s.p, G1_Q, n);
  }

  /** A run from start-up leads to a forked child on the group-1 queue and to a pending signal of INIT. */
  lemma UsersReachable(nt: int, size: int, sig: int) returns (s: State)
    requires BootSizes(nt, size) && nt + 3 < size
    ensures Reachable(s) && s.Wf()
    ensures IsUser(s, nt + 3) && nt + 3 in s.q[G1_Q]
    ensures IsUser(s, nt + 2) && s.p[nt + 2].pendingSet == {sig} && s.sigProcs == 1
  {
    var b := GroupedReachable(nt, size);
    InvMembers(b);
    assert Enabled(b, SignalStep(nt + 2, sig));
    hide Inv, Apply, Reachable, Members;
    SignalOne(b, nt + 2, sig);
    s := Apply(b, SignalStep(nt + 2, sig));
    ReachableStep(b, SignalStep(nt + 2, sig), s);
    ReachableInv(s);
    InGroup(s, nt + 3);
  }

  // ---------------------------------------------------------------- careless callers

  /** do_setgroup with the pid of another process that is ready, T_RESUME of one that was never stopped and do_exec of
      one that does not wait: right after start-up each of them leaves INIT on a wrong queue, or twice on its own. */
  lemma ReadyTargetBreaksQueues(nt: int, size: int) returns (s: State)
    requires BootSizes(nt, size)
    ensures Reachable(s) && Members(s) && TaskRuns(s) && IsUser(s, nt + 2) && s.p[s.Mm()].Live()
    ensures !ExactQueues(SetGroup(s, nt + 2, 1, 0).1.p, s.q)
    ensures !ExactQueues(Resume(s, nt + 2).p, Resume(s, nt + 2).q)
    ensures !ExactQueues(Exec(s, nt + 2, false, 0).p, Exec(s, nt + 2, false, 0).q)
  {
    hide Inv, Members, Reachable, AtStart, BootTable, ExactQueues;
    s := StartReachable(nt, size);
    InvMembers(s);
    StartInit(nt, size, s);
    RegroupReady(s, nt + 2);
    ReadiedReady(s, nt + 2);
  }

  lemma StartInit(nt: int, size: int, s: State)
    requires AtStart(nt, size, s)
    ensures s.nt == nt && s.Wf() && s.Slot(nt + 2) && IsUser(s, nt + 2) && TaskRuns(s)
    ensures s.p[nt + 2] == BLANK.(priority := User) && s.p[s.Mm()].Live()
  {
  }

  lemma RegroupReady(s: State, n: int)
    requires Inv(s) && Members(s) && TaskRuns(s) && s.Slot(n) && s.p[n] == BLANK.(priority := User)
    ensures !ExactQueues(SetGroup(s, n, 1, 0).1.p, s.q)
  {
    hide Inv, Members;
    SetGroupExactIff(s, n, 1, 0);
  }

  lemma ReadiedReady(s: State, n: int)
    requires Inv(s) && Members(s) && TaskRuns(s) && s.p[s.Mm()].Live()
    requires s.Slot(n) && s.p[n] == BLANK.(priority := User)
    ensures !ExactQueues(Resume(s, n).p, Resume(s, n).q)
    ensures !ExactQueues(Exec(s, n, false, 0).p, Exec(s, n, false, 0).q)
  {
    hide Inv, Members, ExactQueues;
    ResumeExactIff(s, n);
    ExecExactIff(s, n);
  }

  /** A task runs, INIT is ready and neither sends nor is sent to, and slot n is unused. */
  ghost predicate CanFork(s: State, n: int) {
    && Reachable(s) && Inv(s) && s.Wf() && TaskRuns(s) && s.Slot(s.nt + 2) && s.Slot(n) && n != s.nt + 2
    && s.p[s.nt + 2] == BLANK.(priority := User) && s.cq[s.nt + 2] == [] && s.p[n].priority == Unused
  }

  /** The child of a fork, before it has its map. */
  lemma ForkInto(s: State, n: int) returns (t: State)
    requires CanFork(s, n)
    ensures Reachable(t) && Inv(t) && t.Wf() && TaskRuns(t) && t.nt == s.nt && |t.p| == |s.p|
    ensures t.p == s.p[n := BLANK.(priority := User, noMap := true)] && t.cq[s.nt + 2] == []
  {
    hide SchedInv, MsgInv, SigInv;
    t := Apply(s, ForkStep(s.nt + 2, n));
    ReachableStep(s, ForkStep(s.nt + 2, n), t);
    hide Inv, Apply, Reachable;
    ReachableInv(t);
    InvMembers(t);
  }

  /** It joins group 3 and gets its map. */
  lemma ReadyInGroup3(s: State, n: int, est: int) returns (t: State)
    requires CanFork(s, n)
    ensures Reachable(t) && Inv(t) && t.Wf() && TaskRuns(t) && t.nt == s.nt
    ensures t.p == s.p[n := BLANK.(priority := User, group := 3, estimate := est)] && t.cq[s.nt + 2] == []
  {
    hide Inv, Apply, Reachable, Members;
    var a := ForkInto(s, n);
    JoinGroup3(a, n, est);
    var b := Apply(a, SetGroupStep(n, 3, est));
    ReachableStep(a, SetGroupStep(n, 3, est), b);
    ReachableInv(b);
    InvMembers(b);
    GetsMap(b, n);
    t := Apply(b, NewMapStep(n));
    ReachableStep(b, NewMapStep(n), t);
    ReachableInv(t);
    InvMembers(t);
  }

  lemma JoinGroup3(s: State, n: int, est: int)
    requires Inv(s) && TaskRuns(s) && IsUser(s, n) && !s.p[n].Runnable()
    ensures Enabled(s, SetGroupStep(n, 3, est))
    ensures var t := Apply(s, SetGroupStep(n, 3, est));
      t.p == s.p[n := s.p[n].(group := 3, estimate := est)] && t.cur == s.cur && t.nt == s.nt && t.cq == s.cq
  {
    hide SchedInv, MsgInv, SigInv;
  }

  lemma GetsMap(s: State, n: int)
    requires Inv(s) && Members(s) && TaskRuns(s) && IsUser(s, n) && s.p[n].group == 3 && s.p[n].noMap
    requires s.p[n].(noMap := false).Runnable()
    ensures var t := Apply(s, NewMapStep(n));
      t.p == s.p[n := s.p[n].(noMap := false)] && t.cur == s.cur && t.nt == s.nt && t.cq == s.cq
  {
    hide SchedInv, MsgInv, SigInv, Members;
  }

  /** Two children are ready in group 3 with estimates 10 and 20; do_setgroup gives the first 30 and leaves it first. */
  lemma NewEstimateBreaksOrder(nt: int, size: int) returns (s: State)
    requires BootSizes(nt, size) && nt + 4 < size
    ensures Reachable(s) && s.Wf() && TaskRuns(s) && IsUser(s, nt + 3) && s.p[nt + 3].Runnable()
    ensures var r := SetGroup(s, nt + 3, 3, 30).1;
      ExactQueues(r.p, r.q) && !SortedByEstimate(r.p, r.q[G3_Q])
  {
    hide Inv, Reachable, AtStart, CanFork, SetGroup;
    var b := StartReachable(nt, size);
    StartCanFork(nt, size, b);
    var a := ReadyInGroup3(b, nt + 3, 10);
    StillCanFork(b, nt + 3, nt + 4, a);
    s := ReadyInGroup3(a, nt + 4, 20);
    RaisedFirst(s, nt + 3, nt + 4);
  }

  lemma StartCanFork(nt: int, size: int, s: State)
    requires Reachable(s) && Inv(s) && AtStart(nt, size, s) && nt + 4 < size
    ensures s.nt == nt && |s.p| == size && CanFork(s, nt + 3) && CanFork(s, nt + 4)
  {
    hide Inv, Reachable;
  }

  lemma StillCanFork(s: State, n: int, m: int, t: State)
    requires CanFork(s, n) && CanFork(s, m) && m != n && t.nt == s.nt && |t.p| == |s.p|
    requires Reachable(t) && Inv(t) && t.Wf() && TaskRuns(t) && t.cq[s.nt + 2] == []
    requires forall i :: 0 <= i < |s.p| && i != n ==> t.p[i] == s.p[i]
    ensures CanFork(t, m)
  {
    hide Inv, Reachable;
  }

  lemma RaisedFirst(s: State, x: int, y: int)
    requires Inv(s) && s.Wf() && IsUser(s, x) && IsUser(s, y) && x != y
    requires s.p[x] == BLANK.(priority := User, group := 3, estimate := 10)
    requires s.p[y] == BLANK.(priority := User, group := 3, estimate := 20)
    ensures var r := SetGroup(s, x, 3, 30).1; ExactQueues(r.p, r.q) && !SortedByEstimate(r.p, r.q[G3_Q])
  {
    SetGroupExactIff(s, x, 3, 30);
    var q := s.q[G3_Q];
    assert x in q <==> Belongs(s.p, G3_Q, x);
    assert y in q <==> Belongs(s.p, G3_Q, y);
    var i :| 0 <= i < |q| && q[i] == x;
    var j :| 0 <= j < |q| && q[j] == y;
    assert i < j;
    hide ExactQueues, Inv;
    assert SetGroup(s, x, 3, 30).1.p[q[i]].estimate == 30;
  }

  /** A task or server that sends to itself is not refused, and waits for itself for ever. */
  lemma SelfSendCloses(s: State, c: int)
    requires Inv(s) && Members(s) && s.Slot(c) && s.p[c].Live() && s.p[c].Runnable() && s.p[c].priority != User
    ensures SendStatus(s, c, c) == Ok && !Acyclic(MiniSend(s, c, c).p) && Path(MiniSend(s, c, c).p, c, c, 1)
  {
    SendAcyclicIff(s, c, c);
    var r := MiniSend(s, c, c);
    assert Path(r.p, c, c, 0);
  }

  /** The running task right after start-up can do so. */
  lemma TaskCanWaitForItself(nt: int, size: int) returns (s: State)
    requires BootSizes(nt, size)
    ensures Reachable(s) && Members(s) && TaskRuns(s)
    ensures SendStatus(s, s.cur, s.cur) == Ok && !Acyclic(MiniSend(s, s.cur, s.cur).p)
  {
    s := StartReachable(nt, size);
    InvMembers(s);
    SelfSendCloses(s, s.cur);
  }

  lemma ReadyTaskRuns(s: State, x: int)
    requires Inv(s) && IsTask(s.p, x) && s.p[x].Runnable()
    ensures s.q[TASK_Q] != [] && s.cur == s.q[TASK_Q][0] && TaskRuns(s)
  {
    assert x in s.q[TASK_Q] <==> Belongs(s.p, TASK_Q, x);
    assert s.q[TASK_Q][0] in s.q[TASK_Q];
    assert Belongs(s.p, TASK_Q, s.q[TASK_Q][0]);
  }

  /** The table at start-up, but for one task. */
  lemma StartTable(nt: int, size: int, b: State, c: int, e: Proc, s: State) returns (x: int)
    requires AtStart(nt, size, b) && 0 <= c < nt && s.p == b.p[c := e] && s.nt == nt
    ensures IsUser(s, nt + 2) && |s.p| == size && forall i :: nt + 2 < i < size ==> s.p[i].priority == Unused
    ensures IsTask(s.p, x) && s.p[x].Runnable()
  {
    x := if c == nt - 2 then nt - 3 else nt - 2;
  }

  /** The running task sends to INIT, which is not waiting: it is queued there, and the next task runs. */
  lemma CalledReachable(nt: int, size: int) returns (s: State)
    requires BootSizes(nt, size)
    ensures Reachable(s) && Inv(s) && Members(s) && TaskRuns(s) && s.nt == nt && |s.p| == size
    ensures IsUser(s, nt + 2) && s.cq[nt + 2] != [] && forall i :: nt + 2 < i < size ==> s.p[i].priority == Unused
  {
    var b := StartReachable(nt, size);
    InvMembers(b);
    CurRunnable(b);
    assert b.nt == nt && |b.p| == size && 0 <= b.cur < nt && |b.cq| == size;
    hide Inv, Members, Reachable, Apply, BootTable, AtStart;
    CallInit(nt, size, b);
    s := Apply(b, SysCallStep(Send, nt + 2));
    assert s.cq[nt + 2] == [b.cur];
    var x := StartTable(nt, size, b, b.cur, s.p[b.cur], s);
    ReachableStep(b, SysCallStep(Send, nt + 2), s);
    ReachableInv(s);
    InvMembers(s);
    ReadyTaskRuns(s, x);
  }

  lemma CurRunnable(s: State)
    requires Inv(s) && TaskRuns(s)
    ensures s.p[s.cur].Live() && s.p[s.cur].Runnable()
  {
    CurBelongs(s);
  }

  lemma CallInit(nt: int, size: int, s: State)
    requires Inv(s) && Members(s) && AtStart(nt, size, s)
    ensures Enabled(s, SysCallStep(Send, s.nt + 2))
    ensures var t := Apply(s, SysCallStep(Send, s.nt + 2));
      t.p == s.p[s.cur := s.p[s.cur].(sending := true, sendto := s.nt + 2)]
        && t.cq == s.cq[s.nt + 2 := [s.cur]] && t.nt == s.nt
  {
    hide SchedInv, MsgInv, SigInv, Members;
    assert s.cq[s.nt + 2] + [s.cur] == [s.cur];
  }

  /** If INIT forks or exits now, the kernel loses track of that sender. */
  lemma CalledTargetBreaksCallers(nt: int, size: int) returns (s: State, i: int)
    requires BootSizes(nt, size) && nt + 3 < size
    ensures Reachable(s) && Members(s) && TaskRuns(s) && IsUser(s, nt + 2) && s.Slot(nt + 3)
      && s.p[nt + 3].priority == Unused
    ensures !Callers(Fork(s, nt + 2, nt + 3).p, Fork(s, nt + 2, nt + 3).cq)
    ensures s.p[nt + 2].sending ==> s.Slot(s.p[nt + 2].sendto)
    ensures Stranded(Xit(s, nt + 2).p, i)
  {
    hide Inv, Members, Reachable, Callers, Fork, Xit, Stranded;
    s := CalledReachable(nt, size);
    ForkCallersIff(s, nt + 2, nt + 3);
    ExitStrandsIff(s, nt + 2);
    i :| Stranded(Xit(s, nt + 2).p, i);
  }

  // ---------------------------------------------------------------- a server runs

  /** Some tasks wait for anything; all else is as at start-up, and the first server runs when all of them wait. */
  ghost predicate TasksWaiting(nt: int, size: int, s: State) {
    && BootSizes(nt, size) && s.Wf() && s.nt == nt && |s.p| == size
    && (forall d :: 0 <= d < size ==> s.cq[d] == [])
    && (forall i :: 0 <= i < size ==> WaitsOrFresh(s.p[i], BootTable(nt, size)[i]))
    && (s.q[TASK_Q] == [] ==> s.q[SERVER_Q] != [] && s.cur == s.q[SERVER_Q][0])
  }

  predicate WaitsOrFresh(e: Proc, f: Proc) {
    e == f || (f.priority == Task && e == f.(receiving := true, getfrom := ANY))
  }

  lemma ReceiveAny(s: State)
    requires Inv(s) && Members(s) && TaskRuns(s) && s.p[s.cur].Runnable() && s.cq[s.cur] == [] && !s.p[s.cur].intBlocked
    requires s.q[TASK_Q] != [] && s.cur == s.q[TASK_Q][0] && s.q[SERVER_Q] != []
    ensures Enabled(s, SysCallStep(Receive, ANY))
    ensures var t := Apply(s, SysCallStep(Receive, ANY));
      && t.p == s.p[s.cur := s.p[s.cur].(receiving := true, getfrom := ANY)] && t.cq == s.cq && t.nt == s.nt
      && t.q == s.q[TASK_Q := Remove(s.q[TASK_Q], s.cur)]
      && (t.q[TASK_Q] == [] ==> t.cur == t.q[SERVER_Q][0])
  {
    SoundSlot(s.nt, s.p, s.cq, s.Mm());
    hide SchedInv, MsgInv, SigInv, Members;
    assert FindSender([], ANY) == -1;
  }

  lemma ServersReady(nt: int, size: int, s: State)
    requires Inv(s) && TasksWaiting(nt, size, s)
    ensures s.q[SERVER_Q] != []
  {
    assert WaitsOrFresh(s.p[nt], BootTable(nt, size)[nt]);
    assert nt in s.q[SERVER_Q] <==> Belongs(s.p, SERVER_Q, nt);
  }

  /** The running task waits, and one task fewer is ready. */
  lemma OneMoreWaits(nt: int, size: int, s: State) returns (t: State)
    requires Reachable(s) && Inv(s) && TasksWaiting(nt, size, s) && s.q[TASK_Q] != []
    ensures Reachable(t) && Inv(t) && TasksWaiting(nt, size, t) && |t.q[TASK_Q]| < |s.q[TASK_Q]|
  {
    InvMembers(s);
    ServersReady(nt, size, s);
    var c := s.q[TASK_Q][0];
    assert c in s.q[TASK_Q] && Belongs(s.p, TASK_Q, c);
    ReadyTaskRuns(s, c);
    assert WaitsOrFresh(s.p[c], BootTable(nt, size)[c]);
    assert s.p[c].priority == Task && s.p[c].Runnable() && !s.p[c].intBlocked;
    hide Inv, Members, Reachable, Apply, BootTable, TasksWaiting;
    ReceiveAny(s);
    t := Apply(s, SysCallStep(Receive, ANY));
    ReachableStep(s, SysCallStep(Receive, ANY), t);
    ReachableInv(t);
    InvMembers(t);
    StillWaiting(nt, size, s, t, c);
  }

  lemma StillWaiting(nt: int, size: int, s: State, t: State, c: int)
    requires TasksWaiting(nt, size, s) && t.Wf() && t.nt == nt && s.Slot(c) && s.p[c].priority == Task
      && s.q[SERVER_Q] != []
    requires t.p == s.p[c := s.p[c].(receiving := true, getfrom := ANY)] && t.cq == s.cq
      && t.q[SERVER_Q] == s.q[SERVER_Q]
    requires t.q[TASK_Q] == [] ==> t.cur == t.q[SERVER_Q][0]
    ensures TasksWaiting(nt, size, t)
  {
    hide BootTable;
    forall i | 0 <= i < size ensures WaitsOrFresh(t.p[i], BootTable(nt, size)[i]) {
      assert WaitsOrFresh(s.p[i], BootTable(nt, size)[i]);
    }
  }

  lemma {:induction false} AllWait(nt: int, size: int, s: State) returns (t: State)
    requires Reachable(s) && Inv(s) && TasksWaiting(nt, size, s)
    ensures Reachable(t) && Inv(t) && TasksWaiting(nt, size, t) && t.q[TASK_Q] == []
    decreases |s.q[TASK_Q]|
  {
    if s.q[TASK_Q] == [] {
      t := s;
    } else {
      var u := OneMoreWaits(nt, size, s);
      t := AllWait(nt, size, u);
    }
  }

  /** Once all tasks wait a server runs, and it too can send to itself. */
  lemma ServerCanWaitForItself(nt: int, size: int) returns (s: State)
    requires BootSizes(nt, size)
    ensures Reachable(s) && Members(s) && s.Slot(s.cur) && s.p[s.cur].priority == Server
    ensures SendStatus(s, s.cur, s.cur) == Ok && !Acyclic(MiniSend(s, s.cur, s.cur).p)
  {
    var b := StartReachable(nt, size);
    ReadyTaskRuns(b, nt - 2);
    s := AllWait(nt, size, b);
    InvMembers(s);
    FirstServer(nt, size, s);
    hide Inv, Members, Reachable, TasksWaiting;
    SelfSendCloses(s, s.cur);
  }

  lemma FirstServer(nt: int, size: int, s: State)
    requires Inv(s) && TasksWaiting(nt, size, s) && s.q[TASK_Q] == []
    ensures s.Slot(s.cur) && s.p[s.cur].priority == Server && s.p[s.cur].Runnable()
  {
    assert s.cur in s.q[SERVER_Q] && Belongs(s.p, SERVER_Q, s.cur);
  }
}
