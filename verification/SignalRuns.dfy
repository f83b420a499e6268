/**
 Signals over whole runs: none is lost and none is invented. Every signal that is caused stays pending until the whole
 set of its process is handed to the memory manager, and the count of a process is what was caused less what was ended.
 */
module SignalRuns {
  import opened KernelState
  import opened ReadyQueues
  import opened Messages
  import opened Rendezvous
  import opened Signals
  import opened SystemTask
  import opened KernelRuns
  import opened KernelSteps

  // ---------------------------------------------------------------- what a step does to the signals of one process

  /** The signals of process i that have been neither told nor ended, and how many have been told. */
  predicate SameSignals(s: State, t: State, i: int) {
    && s.Slot(i) && |t.p| == |s.p| == |s.told| == |t.told| && t.nt == s.nt
    && t.p[i].pendingSet == s.p[i].pendingSet && t.p[i].pendcount == s.p[i].pendcount && t.told[i] == s.told[i]
  }

  /** New signals have been added to the set of i and are counted; then perhaps the whole set has been told. */
  ghost predicate Recorded(s: State, t: State, i: int, caused: set<int>, ended: nat) {
    && s.Slot(i) && |t.p| == |s.p| == |s.told| == |t.told| && t.nt == s.nt
    && t.p[i].pendcount == s.p[i].pendcount + |caused| - ended
    && (Kept(s, t, i, caused, ended) || Told(s, t, i, caused, ended))
  }

  predicate Kept(s: State, t: State, i: int, caused: set<int>, ended: nat)
    requires s.Slot(i) && |t.p| == |s.p| == |s.told| == |t.told|
  {
    t.p[i].pendingSet == s.p[i].pendingSet + caused && t.told[i] == s.told[i] - ended
  }

  predicate Told(s: State, t: State, i: int, caused: set<int>, ended: nat)
    requires s.Slot(i) && |t.p| == |s.p| == |s.told| == |t.told|
  {
    t.p[i].pendingSet == {} && t.told[i] == s.told[i] - ended + |s.p[i].pendingSet + caused|
  }

  /** The signal that a step causes for i, unless it is pending already. */
  function Caused(s: State, st: Step, i: int): set<int>
    requires s.Slot(i)
  {
    match st
    case SignalStep(n, sig) => if n == i then {sig} - s.p[i].pendingSet else {}
    case ExecStep(n, traced, sigtrap) => if n == i && traced then {sigtrap} - s.p[i].pendingSet else {}
    case _ => {}
  }

  /** How many signals of i a step ends. */
  function Ended(s: State, st: Step, i: int): nat
    requires s.Slot(i)
  {
    if st.EndSigStep? && st.n == i && s.p[i].pendcount > 0 && s.p[i].Live() then 1 else 0
  }

  /** Slot i gets or loses its process. */
  predicate Replaces(st: Step, i: int) {
    (st.ForkStep? && st.child == i) || (st.ExitStep? && st.n == i)
  }

  lemma SameThenRecorded(s: State, t: State, u: State, i: int, caused: set<int>, ended: nat)
    requires SameSignals(s, t, i) && Recorded(t, u, i, caused, ended)
    ensures Recorded(s, u, i, caused, ended)
  {
  }

  lemma SameRecorded(s: State, t: State, i: int)
    requires SameSignals(s, t, i)
    ensures Recorded(s, t, i, {}, 0)
  {
    assert s.p[i].pendingSet + {} == s.p[i].pendingSet;
  }

  lemma InformRecords(s: State, i: int)
    requires Members(s) && s.p[s.Mm()].Live() && s.Slot(i)
    ensures Recorded(s, Inform(s), i, {}, 0)
  {
    assert s.Wf();
    hide Members;
    assert s.p[i].pendingSet + {} == s.p[i].pendingSet;
  }

  // ---------------------------------------------------------------- messages

  lemma SendSame(s: State, c: int, d: int, i: int)
    requires Members(s) && s.Slot(c) && (s.p[c].priority == User || s.Slot(d)) && s.Slot(i)
    requires SendStatus(s, c, d) == Ok ==> s.p[c].Live() && (s.Slot(d) && Waits(s.p[d], c) ==> s.p[d].Live())
    ensures SameSignals(s, MiniSend(s, c, d), i)
  {
    assert s.Wf();
    hide Members, SendStatus;
  }

  lemma AwaitRecords(s: State, c: int, src: int, i: int)
    requires Members(s) && s.Slot(c) && s.p[c].Live() && s.p[s.Mm()].Live() && s.Slot(i)
    ensures Recorded(s, AwaitMessage(s, c, src), i, {}, 0)
  {
    assert s.Wf();
    var t := Block(s, c, s.p[c].(receiving := true, getfrom := src));
    assert SameSignals(s, t, i);
    hide Block, Inform, Recorded, Members;
    SameRecorded(s, t, i);
    if t.sigProcs > 0 && c == s.Mm() && src == ANY {
      InformRecords(t, i);
      SameThenRecorded(s, t, Inform(t), i, {}, 0);
    }
  }

  lemma ReceiveRecords(s: State, c: int, src: int, i: int)
    requires Members(s) && s.Slot(c) && s.p[c].Live() && s.p[s.Mm()].Live() && s.Slot(i)
    ensures Recorded(s, MiniRec(s, c, src), i, {}, 0)
  {
    var r := MiniRec(s, c, src);
    assert s.Wf();
    AwaitRecords(s, c, src, i);
    hide Unblock, AwaitMessage, FindSender, Recorded, Members;
    if r != AwaitMessage(s, c, src) {
      assert SameSignals(s, r, i);
      SameRecorded(s, r, i);
    }
  }

  lemma CallFacts(s: State)
    requires Inv(s) && s.cur != s.IdleSlot()
    ensures s.Slot(s.cur) && s.p[s.cur].Live() && s.p[s.Mm()].Live()
    ensures forall d :: 0 <= d < |s.p| && s.p[d].receiving ==> s.p[d].Live()
  {
    CurBelongs(s);
    MmLive(s);
  }

  lemma SendKeepsClasses(s: State, c: int, d: int, i: int)
    requires Members(s) && s.Slot(c) && (s.p[c].priority == User || s.Slot(d)) && s.Slot(i)
    requires s.p[c].Live() && forall x :: 0 <= x < |s.p| && s.p[x].receiving ==> s.p[x].Live()
    ensures var t := MiniSend(s, c, d);
      Members(t) && |t.p| == |s.p| && t.p[i].priority == s.p[i].priority && t.nt == s.nt
  {
    hide SendStatus;
  }

  lemma CallRecords(s: State, fn: Function, sd: int, i: int)
    requires Inv(s) && Members(s) && Enabled(s, SysCallStep(fn, sd)) && s.Slot(i)
    ensures Recorded(s, Apply(s, SysCallStep(fn, sd)), i, {}, 0)
  {
    CallFacts(s);
    NothingRecorded(s, i);
    hide Inv, Members, MiniSend, MiniRec, SendStatus, Recorded;
    if (s.Slot(sd) || sd == ANY) && (s.p[s.cur].priority == User ==> fn == Both) {
      if fn == Receive { ReceiveRecords(s, s.cur, sd, i); } else { SendCallRecords(s, fn, sd, i); }
    }
  }

  lemma SendCallRecords(s: State, fn: Function, sd: int, i: int)
    requires Members(s) && s.Slot(s.cur) && s.p[s.cur].Live() && s.p[s.Mm()].Live() && s.Slot(i) && fn != Receive
    requires s.p[s.cur].priority == User || s.Slot(sd)
    requires forall d :: 0 <= d < |s.p| && s.p[d].receiving ==> s.p[d].Live()
    ensures var c, t := s.cur, MiniSend(s, s.cur, sd);
      && Recorded(s, t, i, {}, 0) && Members(t) && t.Slot(c) && t.p[c].Live() && t.p[t.Mm()].Live()
      && Recorded(s, MiniRec(t, c, sd), i, {}, 0)
  {
    var c, t := s.cur, MiniSend(s, s.cur, sd);
    SendRecords(s, c, sd, i);
    SendKeepsClasses(s, c, sd, c);
    assert s.Wf();
    SendKeepsClasses(s, c, sd, s.Mm());
    hide Members, MiniSend, MiniRec, Recorded;
    ReceiveRecords(t, c, sd, i);
    SameThenRecorded(s, t, MiniRec(t, c, sd), i, {}, 0);
  }

  lemma SendRecords(s: State, c: int, d: int, i: int)
    requires Members(s) && s.Slot(c) && (s.p[c].priority == User || s.Slot(d)) && s.Slot(i) && s.p[c].Live()
    requires forall x :: 0 <= x < |s.p| && s.p[x].receiving ==> s.p[x].Live()
    ensures SameSignals(s, MiniSend(s, c, d), i) && Recorded(s, MiniSend(s, c, d), i, {}, 0)
  {
    hide MiniSend, Members, Recorded;
    SendSame(s, c, d, i);
    SameRecorded(s, MiniSend(s, c, d), i);
  }

  // ---------------------------------------------------------------- signals

  /** t is s with the signal recorded; u is t, perhaps after signals have been told. */
  lemma AddedRecorded(s: State, t: State, u: State, n: int, sig: int, i: int)
    requires s.Wf() && t.Wf() && t.nt == s.nt && t.told == s.told && s.Slot(n) && sig !in s.p[n].pendingSet
    requires t.p == s.p[n := t.p[n]] && t.p[n].pendingSet == s.p[n].pendingSet + {sig}
    requires t.p[n].pendcount == s.p[n].pendcount + 1 && s.Slot(i) && (u == t || Recorded(t, u, i, {}, 0))
    ensures Recorded(s, u, i, if n == i then {sig} else {}, 0)
  {
    assert t.p[i].pendingSet + {} == t.p[i].pendingSet;
    if i != n { assert s.p[i].pendingSet + {} == s.p[i].pendingSet && t.p[i] == s.p[i]; }
  }

  lemma FirstSignalRecords(s: State, n: int, sig: int, i: int)
    requires Members(s) && s.Slot(n) && s.p[n].Live() && s.p[s.Mm()].Live() && s.Slot(i)
    requires sig !in s.p[n].pendingSet && !s.p[n].pending
    ensures Recorded(s, CauseSig(s, n, sig), i, if n == i then {sig} else {}, 0)
  {
    assert s.Wf();
    var e := WithSignal(s.p[n], sig).(pending := true, sigPending := true);
    var t := Block(s, n, e).(sigProcs := s.sigProcs + 1);
    FirstSignalState(s, n, e, t);
    hide Block, Inform, Members, Recorded;
    InformRecords(t, i);
    AddedRecorded(s, t, CauseSig(s, n, sig), n, sig, i);
  }

  lemma FirstSignalState(s: State, n: int, e: Proc, t: State)
    requires Members(s) && s.Slot(n) && s.p[n].Live() && s.p[s.Mm()].Live() && e.Live() && SameClass(e, s.p[n])
    requires t == Block(s, n, e).(sigProcs := s.sigProcs + 1)
    ensures t.Wf() && Members(t) && t.p == s.p[n := e] && t.told == s.told && t.nt == s.nt && t.p[t.Mm()].Live()
  {
    hide Block;
  }

  lemma CauseRecords(s: State, n: int, sig: int, i: int)
    requires Members(s) && s.Slot(n) && s.p[n].Live() && s.p[s.Mm()].Live() && s.Slot(i)
    ensures Recorded(s, CauseSig(s, n, sig), i, if n == i then {sig} - s.p[i].pendingSet else {}, 0)
  {
    assert s.Wf();
    assert s.p[i].pendingSet + {} == s.p[i].pendingSet;
    if sig in s.p[n].pendingSet {
      assert {sig} - s.p[n].pendingSet == {};
    } else {
      assert {sig} - s.p[n].pendingSet == {sig};
      if !s.p[n].pending { FirstSignalRecords(s, n, sig, i); }
    }
    hide Members, SignalFirst;
  }

  lemma RecordedThenSame(s: State, t: State, u: State, i: int, caused: set<int>)
    requires Recorded(s, t, i, caused, 0) && SameSignals(t, u, i)
    ensures Recorded(s, u, i, caused, 0)
  {
  }

  lemma EndOfExec(t: State, n: int, i: int)
    requires Members(t) && t.Slot(n) && t.p[n].Live() && t.Slot(i)
    ensures SameSignals(t, Unblock(t, n, t.p[n].(receiving := false)), i)
  {
    assert t.Wf();
    hide Members, Ready;
  }

  /** exec of a process that is not traced, and of one that is. */
  lemma ExecUnfolds(s: State, n: int, traced: bool, sigtrap: int, t: State)
    requires Members(s) && s.Slot(n) && s.p[n].Live() && s.p[s.Mm()].Live()
    requires t == (if traced then CauseSig(s, n, sigtrap) else s) && t.Slot(n)
    ensures Members(t)
    ensures Exec(s, n, traced, sigtrap) == if t.p[n].Live() then Unblock(t, n, t.p[n].(receiving := false)) else t
  {
    hide Members, CauseSig, Unblock;
  }

  lemma ExecRecords(s: State, n: int, traced: bool, sigtrap: int, i: int)
    requires Members(s) && s.Slot(n) && s.p[n].Live() && s.p[s.Mm()].Live() && s.Slot(i)
    ensures Recorded(s, Exec(s, n, traced, sigtrap), i, Caused(s, ExecStep(n, traced, sigtrap), i), 0)
  {
    var caused := Caused(s, ExecStep(n, traced, sigtrap), i);
    assert caused == if n == i && traced then {sigtrap} - s.p[i].pendingSet else {};
    var t := if traced then CauseSig(s, n, sigtrap) else s;
    assert s.Wf();
    hide Members, Recorded, Unblock, CauseSig, SameSignals, Caused, Exec;
    if traced { CauseRecords(s, n, sigtrap, i); } else { NothingRecorded(s, i); }
    RecordedShape(s, t, i, caused);
    ExecUnfolds(s, n, traced, sigtrap, t);
    if t.p[n].Live() {
      EndOfExec(t, n, i);
      RecordedThenSame(s, t, Exec(s, n, traced, sigtrap), i, caused);
    }
  }

  lemma NothingRecorded(s: State, i: int)
    requires s.Wf() && s.Slot(i)
    ensures Recorded(s, s, i, {}, 0)
  {
    assert s.p[i].pendingSet + {} == s.p[i].pendingSet;
  }

  lemma RecordedShape(s: State, t: State, i: int, caused: set<int>)
    requires Recorded(s, t, i, caused, 0)
    ensures |t.p| == |s.p| == |t.told| && s.Slot(i)
  {
  }

  lemma EndRecords(s: State, n: int, i: int)
    requires Members(s) && s.Slot(n) && s.Slot(i) && s.p[n].pendcount >= 0
    ensures Recorded(s, EndSig(s, n).1, i, {}, Ended(s, EndSigStep(n), i))
  {
    assert s.Wf();
    assert s.p[i].pendingSet + {} == s.p[i].pendingSet;
    hide Members, Unblock;
    var r := EndSig(s, n).1;
    if i != n || r == s {
      assert SameSignals(s, r, i);
    } else {
      assert r.p[n].pendcount == s.p[n].pendcount - 1 && r.p[n].pendingSet == s.p[n].pendingSet;
    }
  }

  // ---------------------------------------------------------------- steps and runs

  // Steps that do not touch signals.

  lemma InterruptSame(s: State, t: int, i: int)
    requires Members(s) && IsTask(s.p, t) && s.Slot(i)
    ensures SameSignals(s, Interrupt(s, t), i)
  {
    assert s.Wf();
    hide Members, Ready;
  }

  lemma TickSame(s: State, i: int)
    requires Members(s) && s.Slot(s.cur) && s.Slot(i)
    ensures SameSignals(s, Tick(s), i) && SameSignals(s, Sched(s), i)
  {
    assert s.Wf();
    hide Members, Pick, Age;
  }

  lemma HardwareStep(s: State, st: Step, i: int)
    requires Inv(s) && Members(s) && Enabled(s, st) && s.Slot(i)
    requires st.InterruptStep? || st.HoldStep? || st.ServeHeldStep? || st.TickStep? || st.RescheduleStep?
    ensures SameSignals(s, Apply(s, st), i)
  {
    assert s.Wf() && s.Slot(s.cur);
    match st
    case InterruptStep(t) => InterruptSame(s, t, i);
    case HoldStep(t) =>
    case ServeHeldStep =>
      HeldFirst(s);
      InterruptSame(s.(held := s.held[1..]), s.held[0], i);
    case TickStep => TickSame(s, i);
    case RescheduleStep => TickSame(s, i);
  }

  /** Blocking and readying leave signals alone when the new entry does. */
  lemma FlagSame(s: State, n: int, e: Proc, i: int)
    requires Members(s) && s.Slot(n) && s.Slot(i)
    requires n == i ==> e.pendingSet == s.p[n].pendingSet && e.pendcount == s.p[n].pendcount
    ensures SameSignals(s, Block(s, n, e), i)
    ensures SameClass(e, s.p[n]) && e.Live() ==> SameSignals(s, Unblock(s, n, e), i)
  {
    assert s.Wf();
    hide Members, Unready, Ready;
  }

  lemma ExitSame(s: State, n: int, i: int)
    requires Members(s) && s.Slot(n) && s.p[n].Live() && (s.p[n].sending ==> s.Slot(s.p[n].sendto))
      && s.Slot(i) && n != i
    ensures SameSignals(s, Xit(s, n), i)
  {
    assert s.Wf();
    hide Unready, Unlink;
  }

  lemma ExitStepSame(s: State, n: int, i: int)
    requires Inv(s) && Members(s) && Enabled(s, ExitStep(n)) && s.Slot(i) && n != i
    ensures SameSignals(s, Apply(s, ExitStep(n)), i)
  {
    SoundSlot(s.nt, s.p, s.cq, n);
    hide SchedInv, MsgInv, SigInv, RrInv, HeldInv, Members, Xit, SameSignals;
    ExitSame(s, n, i);
  }

  lemma NewMapSame(s: State, n: int, i: int)
    requires Members(s) && s.Slot(i)
    ensures SameSignals(s, NewMap(s, n).1, i)
  {
    assert s.Wf();
    if s.Slot(n) { FlagSame(s, n, s.p[n].(noMap := false), i); }
    hide Members, Unblock;
  }

  lemma FlagStep(s: State, st: Step, i: int)
    requires Inv(s) && Members(s) && Enabled(s, st) && s.Slot(i) && (st.NewMapStep? || st.StopStep? || st.ResumeStep?)
    ensures SameSignals(s, Apply(s, st), i)
  {
    assert s.Wf();
    hide SchedInv, MsgInv, SigInv, RrInv, HeldInv, Members, Block, Unblock, NewMap, SameSignals;
    match st
    case NewMapStep(n) => NewMapSame(s, n, i);
    case StopStep(n) => FlagSame(s, n, s.p[n].(stopped := true), i);
    case ResumeStep(n) => FlagSame(s, n, s.p[n].(stopped := false), i);
  }

  lemma TableStep(s: State, st: Step, i: int)
    requires Inv(s) && Members(s) && Enabled(s, st) && s.Slot(i) && !Replaces(st, i)
      && (st.ForkStep? || st.SetGroupStep?)
    ensures SameSignals(s, Apply(s, st), i)
  {
    hide SchedInv, MsgInv, SigInv, RrInv, HeldInv;
  }

  lemma QuietStep(s: State, st: Step, i: int)
    requires Inv(s) && Members(s) && Enabled(s, st) && s.Slot(i) && !Replaces(st, i)
    requires !st.SysCallStep? && !st.SignalStep? && !st.ExecStep? && !st.EndSigStep?
    ensures SameSignals(s, Apply(s, st), i)
  {
    hide Inv, Members, SameSignals, Apply;
    match st
    case InterruptStep(t) => HardwareStep(s, st, i);
    case HoldStep(t) => HardwareStep(s, st, i);
    case ServeHeldStep => HardwareStep(s, st, i);
    case TickStep => HardwareStep(s, st, i);
    case RescheduleStep => HardwareStep(s, st, i);
    case ForkStep(parent, child) => TableStep(s, st, i);
    case SetGroupStep(n, g, e) => TableStep(s, st, i);
    case ExitStep(n) => ExitStepSame(s, n, i);
    case _ => FlagStep(s, st, i);
  }

  /** In one step the set of a process gains what the step causes, and is then perhaps told as a whole; its count
      changes by what is caused and what is ended. */
  lemma StepRecords(s: State, st: Step, i: int)
    requires Inv(s) && Enabled(s, st) && s.Slot(i) && !Replaces(st, i)
    ensures Recorded(s, Apply(s, st), i, Caused(s, st, i), Ended(s, st, i))
  {
    ExactMembers(s);
    MmLive(s);
    assert SigOk(s.p[i], s.told[i]);
    hide Recorded, SchedInv, MsgInv, RrInv, HeldInv, Members, CauseSig, Exec, EndSig;
    match st
    case SysCallStep(fn, sd) => CallRecords(s, fn, sd, i);
    case SignalStep(n, sig) => CauseRecords(s, n, sig, i);
    case ExecStep(n, traced, sigtrap) => ExecRecords(s, n, traced, sigtrap, i);
    case EndSigStep(n) =>
      assert SigOk(s.p[n], s.told[n]);
      EndRecords(s, n, i);
    case _ =>
      QuietStep(s, st, i);
      SameRecorded(s, Apply(s, st), i);
  }

  /** Slot i keeps its process throughout. */
  predicate Stays(steps: seq<Step>, i: int) {
    forall k :: 0 <= k < |steps| ==> !Replaces(steps[k], i)
  }

  predicate Everywhere(run: seq<State>, i: int) {
    forall k :: 0 <= k < |run| ==> run[k].Slot(i)
  }

  /** How many signals are caused for i, and how many ended, in the first n steps. */
  function CausedIn(run: seq<State>, steps: seq<Step>, i: int, n: nat): nat
    requires n <= |steps| <= |run| && Everywhere(run, i)
  {
    if n == 0 then 0 else CausedIn(run, steps, i, n - 1) + |Caused(run[n - 1], steps[n - 1], i)|
  }

  function EndedIn(run: seq<State>, steps: seq<Step>, i: int, n: nat): nat
    requires n <= |steps| <= |run| && Everywhere(run, i)
  {
    if n == 0 then 0 else EndedIn(run, steps, i, n - 1) + Ended(run[n - 1], steps[n - 1], i)
  }

  lemma FollowsCounts(s: State, st: Step, t: State, i: int)
    requires Follows(s, st, t) && s.Slot(i) && t.Slot(i) && !Replaces(st, i)
    ensures t.p[i].pendcount == s.p[i].pendcount + |Caused(s, st, i)| - Ended(s, st, i)
  {
    StepRecords(s, st, i);
  }

  /** The count of a process is what was caused for it less what was ended. */
  lemma {:induction false} SignalsCounted(run: seq<State>, steps: seq<Step>, i: int, n: nat)
    requires Run(run, steps) && Stays(steps, i) && n <= |steps| && Everywhere(run, i)
    ensures |run| == |steps| + 1 && run[n].Slot(i) && run[0].Slot(i)
    ensures run[n].p[i].pendcount == run[0].p[i].pendcount + CausedIn(run, steps, i, n) - EndedIn(run, steps, i, n)
  {
    hide Run, Caused, Ended, Replaces, Follows;
    RunLength(run, steps);
    assert run[n].Slot(i) && run[0].Slot(i);
    if n > 0 {
      SignalsCounted(run, steps, i, n - 1);
      RunStep(run, steps, n - 1);
      FollowsCounts(run[n - 1], steps[n - 1], run[n], i);
    }
  }

  /** The step hands the whole set of i, sig among it, to the memory manager. */
  ghost predicate HandsOver(s: State, st: Step, t: State, i: int, sig: int) {
    && s.Slot(i) && |t.p| == |s.p| == |s.told| == |t.told| && sig in s.p[i].pendingSet + Caused(s, st, i)
    && Told(s, t, i, Caused(s, st, i), Ended(s, st, i))
  }

  lemma FollowsKeepsSignal(s: State, st: Step, t: State, i: int, sig: int)
    requires Follows(s, st, t) && s.Slot(i) && t.Slot(i) && !Replaces(st, i)
    requires sig in s.p[i].pendingSet + Caused(s, st, i)
    ensures sig in t.p[i].pendingSet || HandsOver(s, st, t, i, sig)
  {
    StepRecords(s, st, i);
  }

  /** A signal that is pending before step a, or is caused by it, is pending after the steps up to n, or one of them has
      told the memory manager of it. */
  lemma {:induction false} NoSignalLost(run: seq<State>, steps: seq<Step>, i: int, sig: int, a: nat, n: nat)
    requires Run(run, steps) && Stays(steps, i) && a < n <= |steps| && Everywhere(run, i) && |run| == |steps| + 1
    requires run[a].Slot(i) && sig in run[a].p[i].pendingSet + Caused(run[a], steps[a], i)
    ensures run[n].Slot(i)
    ensures sig in run[n].p[i].pendingSet || exists k :: a <= k < n && HandsOver(run[k], steps[k], run[k + 1], i, sig)
    decreases n
  {
    hide Run, Caused, Replaces, Follows, HandsOver;
    assert run[n].Slot(i) && run[n - 1].Slot(i);
    if n - 1 > a { NoSignalLost(run, steps, i, sig, a, n - 1); }
    if n - 1 == a || sig in run[n - 1].p[i].pendingSet {
      RunStep(run, steps, n - 1);
      FollowsKeepsSignal(run[n - 1], steps[n - 1], run[n], i, sig);
      assert HandsOver(run[n - 1], steps[n - 1], run[n - 1 + 1], i, sig) || sig in run[n].p[i].pendingSet;
    }
  }
}
