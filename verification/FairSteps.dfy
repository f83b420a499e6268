/**
 Every step but a clock tick treats a waiting process gently.
 */
module FairSteps {
  import opened Lists
  import opened KernelState
  import opened ReadyQueues
  import opened Messages
  import opened Rendezvous
  import opened Signals
  import opened SystemTask
  import opened KernelRuns
  import opened KernelInvariant
  import opened KernelSteps
  import opened Fairness

  /** x is ready in group 1 or 2 but does not run. */
  ghost predicate Passed(s: State, x: int) {
    s.Slot(x) && s.Wf() && (x in s.q[G1_Q] || x in s.q[G2_Q]) && x != s.cur
  }

  lemma PassedRuns(s: State, x: int)
    requires Exact(s) && Passed(s, x)
    ensures s.p[x].priority == User && s.p[x].Runnable()
  {
    assert Belongs(s.p, G1_Q, x) || Belongs(s.p, G2_Q, x);
  }

  lemma InvQueuesOk(s: State)
    requires Exact(s) && RrInv(s.rr, s.aging)
    ensures QueuesOk(s)
  {
    ExactMembers(s);
  }

  lemma DeliverGentle(s: State, d: int, x: int)
    requires Members(s) && s.Slot(d) && s.p[d].Live() && s.Slot(x) && d != x
    ensures Gentle(s, Deliver(s, d), x)
  {
    UnblockGentle(s, d, s.p[d].(receiving := false), x);
  }

  lemma QueueSenderGentle(s: State, c: int, d: int, x: int)
    requires QueuesOk(s) && s.Slot(c) && s.Slot(d) && s.Slot(x)
    ensures Gentle(s, QueueSender(s, c, d), x)
  {
    var e := s.p[c].(sending := true, sendto := d);
    BlockGentle(s, c, e, x);
    var t := Block(s, c, e);
    UpdateGentle(t, QueueSender(s, c, d), x);
    GentleComposes(s, t, QueueSender(s, c, d), x);
  }

  lemma MiniSendGentle(s: State, c: int, d: int, x: int)
    requires QueuesOk(s) && s.Slot(c) && s.Slot(x) && s.p[x].Runnable() && (s.p[c].priority == User || s.Slot(d))
    ensures Gentle(s, MiniSend(s, c, d), x)
  {
    MembersTables(s);
    GentleReflexive(s, x);
    if SendStatus(s, c, d) == Ok {
      if Waits(s.p[d], c) {
        DeliverGentle(s, d, x);
      } else {
        QueueSenderGentle(s, c, d, x);
      }
    }
  }

  lemma InformGentle(s: State, x: int)
    requires Members(s) && s.p[s.Mm()].Live() && s.Slot(x) && x != s.Mm()
    ensures Gentle(s, Inform(s), x)
  {
    MembersTables(s);
    GentleReflexive(s, x);
    var n := FirstPending(s.p, s.nt);
    if n < |s.p| {
      var u := s.(sigProcs := s.sigProcs - 1);
      UpdateGentle(s, u, x);
      DeliverGentle(u, u.Mm(), x);
      var t := Deliver(u, u.Mm());
      GentleComposes(s, u, t, x);
      InformLast(s, t, n, x);
      GentleComposes(s, t, Inform(s), x);
    }
  }

  lemma InformLast(s: State, t: State, n: int, x: int)
    requires Members(s) && s.p[s.Mm()].Live() && s.Slot(x) && n == FirstPending(s.p, s.nt) < |s.p|
    requires t == Deliver(s.(sigProcs := s.sigProcs - 1), s.Mm())
    ensures Gentle(t, Inform(s), x)
  {
    hide Pick;
    assert s.p[n].pending;
    var e := t.p[n].(pendingSet := {}, pending := false);
    PickAfterEntry(t, t.told[n := t.told[n] + |s.p[n].pendingSet|], n, e, x);
  }

  lemma PickAfterEntry(t: State, told: seq<int>, n: int, e: Proc, x: int)
    requires Members(t) && t.Slot(n) && t.Slot(x) && SameClass(e, t.p[n]) && e.Live() && |told| == |t.told|
    ensures Members(t.(p := t.p[n := e], told := told)) && Gentle(t, Pick(t.(p := t.p[n := e], told := told)), x)
  {
    UpdateKeepsMembers(t, n, e);
    var u := t.(p := t.p[n := e], told := told);
    MembersTables(t);
    EntryGentle(t, u, n, e, x);
    PickGentle(u, x);
    GentleComposes(t, u, Pick(u), x);
  }

  lemma AwaitMessageGentle(s: State, c: int, src: int, x: int)
    requires QueuesOk(s) && s.Slot(c) && s.p[c].Live() && s.p[s.Mm()].Live() && s.Slot(x) && x != s.Mm()
    ensures Gentle(s, AwaitMessage(s, c, src), x)
  {
    var e := s.p[c].(receiving := true, getfrom := src);
    BlockGentle(s, c, e, x);
    var t := Block(s, c, e);
    if t.sigProcs > 0 && c == s.Mm() && src == ANY {
      InformGentle(t, x);
      GentleComposes(s, t, Inform(t), x);
    }
  }

  lemma AcceptSenderGentle(s: State, c: int, y: int, x: int)
    requires Members(s) && s.Slot(c) && s.Slot(y) && s.p[y].Live() && s.Slot(x) && y != x
    ensures Gentle(s, AcceptSender(s, c, y), x)
  {
    var u := s.(cq := s.cq[c := Remove(s.cq[c], y)]);
    MembersTables(s);
    UpdateGentle(s, u, x);
    UnblockGentle(u, y, s.p[y].(sending := false), x);
    GentleComposes(s, u, AcceptSender(s, c, y), x);
  }

  lemma MiniRecGentle(s: State, c: int, sd: int, x: int)
    requires Mid(s, c, sd) && s.Slot(x) && s.p[x].priority == User && s.p[x].Runnable()
    ensures Gentle(s, MiniRec(s, c, sd), x)
  {
    InvQueuesOk(s);
    MembersTables(s);
    var j := if s.p[c].sending then -1 else FindSender(s.cq[c], sd);
    if j >= 0 {
      assert s.cq[c][j] in s.cq[c];
      assert SendsTo(s.p, s.cq[c][j], c);
      AcceptSenderGentle(s, c, s.cq[c][j], x);
    } else if !s.p[c].sending && s.p[c].intBlocked && RxHardware(s, sd) {
      UpdateGentle(s, TakeInterrupt(s, c), x);
    } else {
      AwaitMessageGentle(s, c, sd, x);
    }
  }

  /** The send half blocks at most the caller. */
  lemma MiniSendOthers(s: State, c: int, d: int, x: int)
    requires Members(s) && s.Slot(c) && s.Slot(x) && x != c && s.p[x].Runnable()
      && (s.p[c].priority == User || s.Slot(d))
    ensures MiniSend(s, c, d).Slot(x) && MiniSend(s, c, d).p[x] == s.p[x]
  {
  }

  lemma SysCallGentle(s: State, fn: Function, sd: int, x: int)
    requires Inv(s) && Enabled(s, SysCallStep(fn, sd)) && Passed(s, x)
    ensures Gentle(s, Apply(s, SysCallStep(fn, sd)), x)
  {
    hide MsgInv, SigInv;
    ExactMembers(s);
    InvQueuesOk(s);
    RunnerSound(s);
    PassedRuns(s, x);
    MembersTables(s);
    GentleReflexive(s, x);
    if (s.Slot(sd) || sd == ANY) && (s.p[s.cur].priority == User ==> fn == Both) {
      if fn == Receive {
        assert Mid(s, s.cur, sd);
        MiniRecGentle(s, s.cur, sd, x);
      } else if SendStatus(s, s.cur, sd) == Ok {
        SendRecGentle(s, fn, sd, x);
      }
    }
  }

  lemma SendRecGentle(s: State, fn: Function, sd: int, x: int)
    requires Inv(s) && QueuesOk(s) && Enabled(s, SysCallStep(fn, sd)) && fn != Receive
      && (s.Slot(sd) || s.p[s.cur].priority == User)
    requires s.p[s.cur].Live() && s.Slot(x) && x != s.cur && s.p[x].priority == User && s.p[x].Runnable()
    requires SendStatus(s, s.cur, sd) == Ok
    ensures Gentle(s, MiniSend(s, s.cur, sd), x)
    ensures fn == Both ==>
      Mid(MiniSend(s, s.cur, sd), s.cur, sd) && Gentle(s, MiniRec(MiniSend(s, s.cur, sd), s.cur, sd), x)
  {
    SendHalfKeeps(s, fn, sd);
    MiniSendGentle(s, s.cur, sd, x);
    if fn == Both {
      var t := MiniSend(s, s.cur, sd);
      MiniSendOthers(s, s.cur, sd, x);
      MiniRecGentle(t, s.cur, sd, x);
      GentleComposes(s, t, MiniRec(t, s.cur, sd), x);
    }
  }

  // ---------------------------------------------------------------- the other steps

  lemma SignalBlockGentle(s: State, n: int, e: Proc, x: int)
    requires QueuesOk(s) && s.Slot(n) && SameClass(e, s.p[n]) && s.Slot(x)
    ensures Gentle(s, Block(s, n, e).(sigProcs := s.sigProcs + 1), x)
  {
    BlockGentle(s, n, e, x);
    var t := Block(s, n, e);
    UpdateGentle(t, t.(sigProcs := s.sigProcs + 1), x);
    GentleComposes(s, t, t.(sigProcs := s.sigProcs + 1), x);
  }

  lemma SignalFirstGentle(s: State, n: int, e: Proc, x: int)
    requires QueuesOk(s) && s.Slot(n) && e.Live() && SameClass(e, s.p[n]) && s.p[s.Mm()].Live()
      && s.Slot(x) && x != s.Mm()
    ensures Gentle(s, SignalFirst(s, n, e), x)
  {
    SignalBlockGentle(s, n, e, x);
    var u := Block(s, n, e).(sigProcs := s.sigProcs + 1);
    assert Members(u) && u.p[u.Mm()].Live();
    InformAfter(s, u, x);
    assert SignalFirst(s, n, e) == if MmListens(u) then Inform(u) else u;
  }

  lemma InformAfter(s: State, u: State, x: int)
    requires Gentle(s, u, x) && Members(u) && u.p[u.Mm()].Live() && u.Slot(x) && x != u.Mm()
    ensures Gentle(s, if MmListens(u) then Inform(u) else u, x)
  {
    if MmListens(u) {
      InformGentle(u, x);
      GentleComposes(s, u, Inform(u), x);
    }
  }

  lemma CauseSigGentle(s: State, n: int, sig: int, x: int)
    requires QueuesOk(s) && s.Slot(n) && s.p[n].Live() && s.p[s.Mm()].Live() && s.Slot(x) && x != s.Mm()
    ensures Gentle(s, CauseSig(s, n, sig), x)
  {
    MembersTables(s);
    GentleReflexive(s, x);
    if sig !in s.p[n].pendingSet {
      if s.p[n].pending {
        UpdateGentle(s, SignalMore(s, n, WithSignal(s.p[n], sig)), x);
      } else {
        SignalFirstGentle(s, n, WithSignal(s.p[n], sig).(pending := true, sigPending := true), x);
      }
    }
  }

  lemma EndSigGentle(s: State, n: int, x: int)
    requires Members(s) && s.Slot(n) && s.Slot(x) && (s.p[n].pendcount == 1 ==> n != x)
    ensures Gentle(s, EndSig(s, n).1, x)
  {
    MembersTables(s);
    GentleReflexive(s, x);
    var c := s.p[n].pendcount - 1;
    if s.p[n].Live() && s.p[n].pendcount != 0 {
      if c != 0 {
        EntryGentle(s, EndSig(s, n).1, n, s.p[n].(pendcount := c), x);
      } else {
        LastSigGentle(s, s.(told := s.told[n := s.told[n] - 1]), n, x);
      }
    }
  }

  lemma LastSigGentle(s: State, t: State, n: int, x: int)
    requires Members(s) && s.Slot(n) && s.Slot(x) && n != x && s.p[n].Live()
    requires t == s.(told := s.told[n := s.told[n] - 1])
    ensures Members(t) && Gentle(s, Unblock(t, n, s.p[n].(pendcount := 0, sigPending := false)), x)
  {
    MembersTables(s);
    var e := s.p[n].(pendcount := 0, sigPending := false);
    assert s.p[n := s.p[n]] == s.p;
    EntryGentle(s, t, n, s.p[n], x);
    UnblockGentle(t, n, e, x);
    GentleComposes(s, t, Unblock(t, n, e), x);
  }

  lemma ExecGentle(s: State, n: int, traced: bool, sigtrap: int, x: int)
    requires Inv(s) && Members(s) && Enabled(s, ExecStep(n, traced, sigtrap)) && s.Slot(x) && x != s.Mm() && n != x
    ensures s.p[s.Mm()].Live() && Gentle(s, Exec(s, n, traced, sigtrap), x)
  {
    MembersTables(s);
    InvQueuesOk(s);
    GentleReflexive(s, x);
    if traced {
      CauseSigKeepsTarget(s, n, sigtrap);
      CauseSigGentle(s, n, sigtrap, x);
    }
    var t := if traced then CauseSig(s, n, sigtrap) else s;
    assert IsUser(t, n);
    UnblockGentle(t, n, t.p[n].(receiving := false), x);
    GentleComposes(s, t, Exec(s, n, traced, sigtrap), x);
  }

  lemma ExitGentle(s: State, n: int, x: int)
    requires Inv(s) && QueuesOk(s) && IsUser(s, n) && s.Slot(x) && (s.p[n].sending ==> s.Slot(s.p[n].sendto))
    ensures Gentle(s, Xit(s, n), x)
  {
    var t := s.(cq := Unlink(s.p, s.cq, n), told := s.told[n := 0],
                sigProcs := if s.p[n].pending then s.sigProcs - 1 else s.sigProcs);
    MembersTables(s);
    assert LiveCallers(t.p, t.cq);
    UpdateGentle(s, t, x);
    BlockGentle(t, n, Xit(s, n).p[n], x);
    GentleComposes(s, t, Xit(s, n), x);
  }

  lemma InterruptGentle(s: State, t: int, x: int)
    requires Members(s) && IsTask(s.p, t) && s.Slot(x) && t != x
    ensures Gentle(s, Interrupt(s, t), x)
  {
    MembersTables(s);
    if !(s.p[t].receiving && !s.p[t].sending && RxHardware(s, s.p[t].getfrom)) {
      UpdateGentle(s, Interrupt(s, t), x);
    } else {
      var e := s.p[t].(receiving := false, intBlocked := false);
      UpdateKeepsMembers(s, t, e);
      var u := s.(p := s.p[t := e]);
      UpdateGentle(s, u, x);
      ReadyGentle(u, t, x);
      GentleComposes(s, u, Ready(u, t), x);
    }
  }

  lemma ServeHeldGentle(s: State, x: int)
    requires Inv(s) && Members(s) && s.Slot(x) && s.p[x].priority != Task && s.held != []
    ensures Members(s.(held := s.held[1..])) && IsTask(s.p, s.held[0])
    ensures Gentle(s, Interrupt(s.(held := s.held[1..]), s.held[0]), x)
  {
    MembersTables(s);
    HeldHead(s);
    var u := s.(held := s.held[1..]);
    UpdateGentle(s, u, x);
    InterruptGentle(u, s.held[0], x);
    GentleComposes(s, u, Interrupt(u, s.held[0]), x);
  }

  lemma SchedByTaskGentle(s: State, x: int)
    requires SchedInv(s) && Members(s) && TaskRuns(s) && s.Slot(x)
    ensures Gentle(s, Sched(s), x)
  {
    MembersTables(s);
    GentleReflexive(s, x);
    if s.q[USER_Q] != [] {
      var t := s.(q := s.q[USER_Q := Rotate(s.q[USER_Q])]);
      RotateKeepsMembers(s, t, USER_Q);
      MembersTables(t);
      assert NewPicks(s, t) == [];
      assert Gentle(s, t, x);
      PickGentle(t, x);
      GentleComposes(s, t, Pick(t), x);
    }
  }

  /** Group and table changes concern processes that are on no queue. */
  lemma TableStepGentle(s: State, st: Step, x: int)
    requires Inv(s) && Enabled(s, st) && Passed(s, x) && (st.ForkStep? || st.SetGroupStep?)
    ensures Gentle(s, Apply(s, st), x)
  {
    hide MsgInv, SigInv;
    ExactMembers(s);
    PassedRuns(s, x);
    MembersTables(s);
    var n := if st.ForkStep? then st.child else st.n;
    assert forall k :: 0 <= k < QUEUES && n in s.q[k] ==> Belongs(s.p, k, n);
    forall j | 0 <= j < |s.q[G1_Q]| ensures s.q[G1_Q][j] != n {
      assert s.q[G1_Q][j] in s.q[G1_Q];
      assert Belongs(s.p, G1_Q, s.q[G1_Q][j]);
    }
    UpdateGentle(s, Apply(s, st), x);
  }

  /** What a step may know about x and the tables. */
  lemma StepFacts(s: State, x: int)
    requires Inv(s) && Passed(s, x)
    ensures Members(s) && QueuesOk(s) && Tables(s) && Gentle(s, s, x)
    ensures s.p[x].priority == User && s.p[x].Runnable() && s.p[s.Mm()].priority == Server && x != s.Mm()
  {
    ExactMembers(s);
    InvQueuesOk(s);
    PassedRuns(s, x);
    MembersTables(s);
    GentleReflexive(s, x);
  }

  lemma HardwareGentle(s: State, st: Step, x: int)
    requires Inv(s) && Enabled(s, st) && Passed(s, x) && (st.InterruptStep? || st.HoldStep? || st.ServeHeldStep?)
    ensures Gentle(s, Apply(s, st), x)
  {
    StepFacts(s, x);
    hide MsgInv, SigInv, SchedInv;
    match st
    case InterruptStep(t) => InterruptGentle(s, t, x);
    case HoldStep(t) => UpdateGentle(s, HoldInterrupt(s, t), x);
    case ServeHeldStep => ServeHeldGentle(s, x);
  }

  lemma SignalStepGentle(s: State, st: Step, x: int)
    requires Inv(s) && Enabled(s, st) && Passed(s, x) && (st.SignalStep? || st.EndSigStep? || st.ExecStep?)
    ensures Gentle(s, Apply(s, st), x)
  {
    StepFacts(s, x);
    match st
    case SignalStep(n, sig) => CauseSigGentle(s, n, sig, x);
    case EndSigStep(n) =>
      assert SigOk(s.p[n], s.told[n]);
      EndSigGentle(s, n, x);
    case ExecStep(n, traced, sigtrap) => ExecGentle(s, n, traced, sigtrap, x);
  }

  lemma LifeStepGentle(s: State, st: Step, x: int)
    requires Inv(s) && Enabled(s, st) && Passed(s, x)
      && (st.NewMapStep? || st.ExitStep? || st.StopStep? || st.ResumeStep?)
    ensures Gentle(s, Apply(s, st), x)
  {
    StepFacts(s, x);
    match st
    case NewMapStep(n) =>
      if s.Slot(n) && !s.p[n].Runnable() && s.p[n].Live() { UnblockGentle(s, n, s.p[n].(noMap := false), x); }
    case ExitStep(n) => SoundSlot(s.nt, s.p, s.cq, n); ExitGentle(s, n, x);
    case StopStep(n) => BlockGentle(s, n, s.p[n].(stopped := true), x);
    case ResumeStep(n) => UnblockGentle(s, n, s.p[n].(stopped := false), x);
  }

  lemma StepGentle(s: State, st: Step, x: int)
    requires Inv(s) && Enabled(s, st) && Passed(s, x) && st != TickStep
    ensures Gentle(s, Apply(s, st), x)
  {
    match st
    case SysCallStep(fn, sd) => SysCallGentle(s, fn, sd, x);
    case InterruptStep(t) => HardwareGentle(s, st, x);
    case HoldStep(t) => HardwareGentle(s, st, x);
    case ServeHeldStep => HardwareGentle(s, st, x);
    case SignalStep(n, sig) => SignalStepGentle(s, st, x);
    case EndSigStep(n) => SignalStepGentle(s, st, x);
    case ExecStep(n, traced, sigtrap) => SignalStepGentle(s, st, x);
    case NewMapStep(n) => LifeStepGentle(s, st, x);
    case ExitStep(n) => LifeStepGentle(s, st, x);
    case StopStep(n) => LifeStepGentle(s, st, x);
    case ResumeStep(n) => LifeStepGentle(s, st, x);
    case ForkStep(parent, child) => TableStepGentle(s, st, x);
    case SetGroupStep(n, g, e) => TableStepGentle(s, st, x);
    case RescheduleStep =>
      StepFacts(s, x);
      SchedByTaskGentle(s, x);
  }
}
