/**
 The system calls that change who may run: signals, fork, newmap, exec, exit, tracing and setgroup;
 and the clock's share of scheduling.
 */
module SystemTask {
  import opened Lists
  import opened KernelState
  import opened ReadyQueues
  import opened Messages
  import opened Rendezvous

  // ---------------------------------------------------------------- signals

  /** The process gets its first pending signal: it is blocked as e, and a listening memory manager is told at once. */
  ghost function SignalFirst(s: State, n: int, e: Proc): (r: State)
    requires Members(s) && s.Slot(n) && e.Live() && SameClass(e, s.p[n]) && s.p[s.Mm()].Live()
    ensures Members(r)
  {
    var t := Block(s, n, e).(sigProcs := s.sigProcs + 1);
    if MmListens(t) then Inform(t) else t
  }

  function WithSignal(e: Proc, sig: int): Proc {
    e.(pendingSet := e.pendingSet + {sig}, pendcount := e.pendcount + 1)
  }

  /** Another signal for a process that is already pending. */
  function SignalMore(s: State, n: int, e: Proc): (r: State)
    requires Members(s) && s.Slot(n) && e.Live() && SameClass(e, s.p[n])
    ensures r == s.(p := s.p[n := e]) && Members(r)
  {
    UpdateKeepsMembers(s, n, e);
    s.(p := s.p[n := e])
  }

  /** cause_sig */
  ghost function CauseSig(s: State, n: int, sig: int): (r: State)
    requires Members(s) && s.Slot(n) && s.p[n].Live() && s.p[s.Mm()].Live()
    ensures Members(r)
  {
    if sig in s.p[n].pendingSet then s
    else if s.p[n].pending then SignalMore(s, n, WithSignal(s.p[n], sig))
    else SignalFirst(s, n, WithSignal(s.p[n], sig).(pending := true, sigPending := true))
  }

  /** do_endsig: the memory manager has finished one signal. */
  function EndSig(s: State, n: int): (r: (Status, State))
    requires Members(s) && s.Slot(n)
    ensures Members(r.1)
  {
    var c := s.p[n].pendcount - 1;
    var t := s.(told := s.told[n := s.told[n] - 1]);
    if s.p[n].priority == Unused then (BadProcess, s)
    else if !s.p[n].Live() || s.p[n].pendcount == 0 then (Ok, s)
    else if c != 0 then
      UpdateKeepsMembers(t, n, s.p[n].(pendcount := c));
      (Ok, t.(p := t.p[n := s.p[n].(pendcount := c)]))
    else (Ok, Unblock(t, n, s.p[n].(pendcount := c, sigPending := false)))
  }

  // ---------------------------------------------------------------- fork, newmap, exec, exit

  /** do_fork: the child is a copy of its parent that has no memory map, no signals and no scheduling group. */
  function Fork(s: State, parent: int, child: int): (r: State)
    requires s.Wf() && s.Slot(parent) && s.Slot(child)
    ensures r.Wf()
  {
    var e := s.p[parent].(noMap := true, pending := false, sigPending := false, stopped := false,
                          group := 0, estimate := 0, pendingSet := {}, pendcount := 0);
    s.(p := s.p[child := e], cq := s.cq[child := s.cq[parent]], wait := s.wait[child := 0], rr := s.rr[child := 0],
       told := s.told[child := 0])
  }

  /** do_newmap */
  function NewMap(s: State, n: int): (r: (Status, State))
    requires Members(s)
    ensures Members(r.1)
  {
    if !s.Slot(n) then (BadProcess, s)
    else if s.p[n].Runnable() || !s.p[n].Live() then (Ok, s)
    else (Ok, Unblock(s, n, s.p[n].(noMap := false)))
  }

  /** do_exec; a traced process first gets SIGTRAP. */
  ghost function Exec(s: State, n: int, traced: bool, sigtrap: int): (r: State)
    requires Members(s) && s.Slot(n) && s.p[n].Live() && s.p[s.Mm()].Live()
    ensures Members(r)
  {
    var t := if traced then CauseSig(s, n, sigtrap) else s;
    if t.p[n].Live() then Unblock(t, n, t.p[n].(receiving := false)) else t
  }

  /** What do_xit leaves of a slot. */
  function Emptied(e: Proc): Proc {
    e.(priority := Unused, noMap := false, sending := false, receiving := false, pending := false,
       sigPending := false, stopped := false, pendingSet := {}, pendcount := 0)
  }

  /** do_xit: the slot becomes unused; the process leaves the ready queue or the caller queue it is on. */
  function Xit(s: State, n: int): (r: State)
    requires Members(s) && s.Slot(n) && s.p[n].Live() && (s.p[n].sending ==> s.Slot(s.p[n].sendto))
    ensures r.Wf()
  {
    var t := s.(cq := Unlink(s.p, s.cq, n), told := s.told[n := 0],
                sigProcs := if s.p[n].pending then s.sigProcs - 1 else s.sigProcs);
    assert LiveCallers(t.p, t.cq);
    Block(t, n, Emptied(s.p[n]))
  }

  // ---------------------------------------------------------------- tracing, setgroup

  /** T_STOP */
  function Stop(s: State, n: int): (r: State)
    requires Members(s) && s.Slot(n) && s.p[n].Live()
    ensures Members(r)
  {
    Block(s, n, s.p[n].(stopped := true))
  }

  /** T_RESUME and T_STEP */
  function Resume(s: State, n: int): (r: State)
    requires Members(s) && s.Slot(n) && s.p[n].Live()
    ensures Members(r)
  {
    Unblock(s, n, s.p[n].(stopped := false))
  }

  /** do_setgroup: no queue is touched. */
  function SetGroup(s: State, n: int, group: int, estimate: int): (r: (Status, State))
    requires s.Wf() && s.Slot(n)
    ensures r.1.Wf()
  {
    if s.p[n].priority != User then (Invalid, s)
    else
      (Ok, s.(p := s.p[n := s.p[n].(group := group, estimate := if group == 3 then estimate else 100)],
              wait := s.wait[n := 0], rr := s.rr[n := 0]))
  }

  // ---------------------------------------------------------------- interrupts

  /** interrupt(), when it does not compete with a process switch; the last part is ready() in line. */
  function Interrupt(s: State, t: int): (r: State)
    requires Members(s) && IsTask(s.p, t)
    ensures Members(r) && r.held == s.held && |r.p| == |s.p|
    ensures forall i :: 0 <= i < |s.p| ==> r.p[i].priority == s.p[i].priority
  {
    if !(s.p[t].receiving && !s.p[t].sending && RxHardware(s, s.p[t].getfrom)) then
      UpdateKeepsMembers(s, t, s.p[t].(intBlocked := true));
      s.(p := s.p[t := s.p[t].(intBlocked := true)])
    else
      var u := s.(p := s.p[t := s.p[t].(receiving := false, intBlocked := false)]);
      UpdateKeepsMembers(s, t, u.p[t]);
      ReadyKeepsMembers(u, t);
      Ready(u, t)
  }

  /** interrupt(), when it would compete: the task joins the held queue unless it is on it. */
  function HoldInterrupt(s: State, t: int): (r: State) {
    if t in s.held then s else s.(held := s.held + [t])
  }

  predicate IsTask(p: seq<Proc>, i: int) {
    0 <= i < |p| && p[i].priority == Task
  }

  predicate Tasks(p: seq<Proc>, ts: seq<int>) {
    forall j :: 0 <= j < |ts| ==> IsTask(p, ts[j])
  }

  predicate AllTasks(p: seq<Proc>, arrivals: seq<seq<int>>) {
    forall k :: 0 <= k < |arrivals| ==> Tasks(p, arrivals[k])
  }

  function ThisRound(arrivals: seq<seq<int>>): seq<int> { if arrivals == [] then [] else arrivals[0] }

  function LaterRounds(arrivals: seq<seq<int>>): seq<seq<int>> { if arrivals == [] then [] else arrivals[1..] }

  /** Interrupts that arrive one after the other while they have to be held. */
  function HoldAll(s: State, ts: seq<int>): (r: State)
    requires Tasks(s.p, ts)
    ensures r == s.(held := r.held) && s.held <= r.held
    ensures ts == [] ==> r == s
    ensures forall j :: 0 <= j < |r.held| ==> r.held[j] in s.held || IsTask(s.p, r.held[j])
    decreases |ts|
  {
    if ts == [] then s else
      assert forall j :: 0 <= j < |ts| - 1 ==> ts[1..][j] == ts[j + 1];
      HoldAll(HoldInterrupt(s, ts[0]), ts[1..])
  }

  /** One round of unhold: repeat the first held interrupt; meanwhile others arrive. */
  function UnholdRound(s: State, ts: seq<int>): (r: State)
    requires Members(s) && Tasks(s.p, s.held) && s.held != [] && Tasks(s.p, ts)
    ensures Members(r) && |r.p| == |s.p| && Tasks(r.p, r.held) && (ts == [] ==> |r.held| < |s.held|)
    ensures forall i :: 0 <= i < |s.p| ==> r.p[i].priority == s.p[i].priority
  {
    var t := Interrupt(s.(held := s.held[1..]), s.held[0]);
    assert forall j :: 0 <= j < |t.held| ==> t.held[j] == s.held[j + 1];
    HoldAll(t, ts)
  }

  /** unhold(): repeat the held interrupts in order; arrivals[k] are those that arrive during round k, if it takes
      place. */
  function Unhold(s: State, arrivals: seq<seq<int>>): (r: State)
    requires Members(s) && Tasks(s.p, s.held) && AllTasks(s.p, arrivals)
    ensures Members(r) && r.held == []
    decreases |arrivals|, |s.held|
  {
    if s.held == [] then s
    else Unhold(UnholdRound(s, ThisRound(arrivals)), LaterRounds(arrivals))
  }

  /** The tasks whose interrupts it repeats. */
  function Repeated(s: State, arrivals: seq<seq<int>>): (r: seq<int>)
    requires Members(s) && Tasks(s.p, s.held) && AllTasks(s.p, arrivals)
    decreases |arrivals|, |s.held|
  {
    if s.held == [] then []
    else [s.held[0]] + Repeated(UnholdRound(s, ThisRound(arrivals)), LaterRounds(arrivals))
  }

  // ---------------------------------------------------------------- clock ticks

  function Cap(w: int): int {
    if w > MAX_WAIT_TICKS then MAX_WAIT_TICKS else w
  }

  /** First loop of update_aging_for_group2: every queued group-2 process but the running one. */
  function AgeQueue(wait: seq<int>, q: seq<int>, cur: int): (r: seq<int>)
    requires InTable(q, |wait|)
    ensures |r| == |wait|
    decreases |q|
  {
    if q == [] then wait
    else AgeQueue(if q[0] == cur then wait else wait[q[0] := Cap(wait[q[0]] + 1)], q[1..], cur)
  }

  predicate AgesBlocked(e: Proc) {
    e.priority == User && e.group == 2 && (e.sending || e.receiving)
  }

  /** Second loop: every blocked group-2 process of the table from slot i on. */
  function AgeBlocked(wait: seq<int>, p: seq<Proc>, i: nat): (r: seq<int>)
    requires i <= |p| == |wait|
    ensures |r| == |wait|
    decreases |p| - i
  {
    if i == |p| then wait
    else AgeBlocked(if AgesBlocked(p[i]) then wait[i := Cap(wait[i] + 1)] else wait, p, i + 1)
  }

  function Age(s: State): (r: State)
    requires Members(s)
    ensures r == s.(wait := r.wait) && r.Wf()
  {
    assert InTable(s.q[G2_Q], |s.wait|) by {
      assert forall j :: 0 <= j < |s.q[G2_Q]| ==> Member(s.p, G2_Q, s.q[G2_Q][j]);
    }
    s.(wait := AgeBlocked(AgeQueue(s.wait, s.q[G2_Q], s.cur), s.p, 0))
  }

  /** The round-robin half of handle_clock_tick. */
  function TickQuantum(s: State): (r: State)
    requires Members(s) && s.Slot(s.cur)
    ensures Members(r)
  {
    var t := s.(rr := s.rr[s.cur := if s.rr[s.cur] + 1 >= RR_QUANTUM then 0 else s.rr[s.cur] + 1]);
    if s.p[s.cur].Queue() != G1_Q then s
    else if s.rr[s.cur] + 1 >= RR_QUANTUM then Sched(t)
    else t
  }

  /** handle_clock_tick */
  function Tick(s: State): (r: State)
    requires Members(s) && s.Slot(s.cur)
    ensures Members(r)
  {
    var t := TickQuantum(s);
    if t.aging + 1 >= AGING_TICK then Age(t).(aging := 0) else t.(aging := t.aging + 1)
  }
}
