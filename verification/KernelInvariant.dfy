/**
 Every step of the kernel keeps the invariant, so every run does.
 */
module KernelInvariant {
  import opened Lists
  import opened KernelState
  import opened SendGraph
  import opened ReadyQueues
  import opened Messages
  import opened Rendezvous
  import opened Signals
  import opened SystemTask
  import opened KernelRuns

  /** The parts of the invariant that the position of the running process does not matter for. */
  ghost predicate Rest(s: State) {
    MsgInv(s.nt, s.p, s.cq) && SigInv(s.p, s.told, s.sigProcs) && RrInv(s.rr, s.aging) && HeldInv(s.p, s.held)
  }

  lemma HeldUpdate(p: seq<Proc>, held: seq<int>, i: int, e: Proc)
    requires HeldInv(p, held) && 0 <= i < |p| && (p[i].priority == Task ==> e.priority == Task)
    ensures HeldInv(p[i := e], held)
  {
    assert forall j :: 0 <= j < |held| ==> IsTask(p, held[j]);
  }

  /** A slot changes in a way that touches neither messages nor signals, except to end a wait. */
  lemma RestHarmless(s: State, t: State, i: int, e: Proc)
    requires Rest(s) && s.Slot(i) && Harmless(s.p[i], e)
    requires e.pending == s.p[i].pending && e.sigPending == s.p[i].sigPending && e.pendingSet == s.p[i].pendingSet
      && e.pendcount == s.p[i].pendcount
    requires t.nt == s.nt && t.p == s.p[i := e] && t.cq == s.cq && t.told == s.told && t.sigProcs == s.sigProcs
    requires t.rr == s.rr && t.aging == s.aging && t.held == s.held
    ensures Rest(t)
  {
    HarmlessKeeps(s.nt, s.p, s.cq, i, e);
    OtherFields(s.p, s.told, s.sigProcs, i, e);
    HeldUpdate(s.p, s.held, i, e);
  }

  lemma RunnerSound(s: State)
    requires Inv(s) && s.cur != s.IdleSlot()
    ensures s.p[s.cur].Live() && s.p[s.cur].Runnable()
  {
    CurBelongs(s);
  }

  // ---------------------------------------------------------------- sending

  /** Except for a process that sends to itself, the deadlock walk asks whether the caller is reachable from the
      destination. */
  lemma WalkIsReach(p: seq<Proc>, d: int, c: int)
    requires 0 <= d < |p| && d != c
    ensures Reaches(p, d, c) <==> p[d].sending && Reaches(p, p[d].sendto, c)
  {
    if Reaches(p, d, c) {
      var k: nat :| Path(p, d, c, k);
      assert Path(p, p[d].sendto, c, k - 1);
    }
    if p[d].sending && Reaches(p, p[d].sendto, c) {
      var k: nat :| Path(p, p[d].sendto, c, k);
      assert Path(p, d, c, k + 1);
    }
  }

  lemma DeliverKeeps(s: State, c: int, d: int)
    requires SchedInv(s) && Members(s) && Rest(s) && s.Slot(d) && Waits(s.p[d], c)
    requires s.cur != s.IdleSlot() && (s.p[d].priority == User ==> s.p[s.cur].priority != User)
    ensures s.p[d].Live() && SchedInv(Deliver(s, d)) && Rest(Deliver(s, d))
  {
    SoundSlot(s.nt, s.p, s.cq, d);
    var e := s.p[d].(receiving := false);
    UnblockSched(s, d, e);
    RestHarmless(s, Deliver(s, d), d, e);
  }

  lemma QueueSenderKeeps(s: State, c: int, d: int)
    requires SchedInv(s) && Members(s) && Rest(s) && s.Slot(c) && s.Slot(d) && s.p[c].Live() && s.p[c].Runnable()
    requires SendStatus(s, c, d) == Ok && c != d && !Waits(s.p[d], c)
    ensures SchedInv(QueueSender(s, c, d)) && Rest(QueueSender(s, c, d))
  {
    var e := s.p[c].(sending := true, sendto := d);
    WalkIsReach(s.p, d, c);
    QueueKeeps(s.nt, s.p, s.cq, c, d);
    BlockSched(s, c, e);
    OtherFields(s.p, s.told, s.sigProcs, c, e);
    HeldUpdate(s.p, s.held, c, e);
    QueueSenderSched(s, c, d);
  }

  lemma QueueSenderSched(s: State, c: int, d: int)
    requires SchedInv(s) && Members(s) && s.Slot(c) && s.Slot(d) && s.p[c].Live()
    requires SchedInv(Block(s, c, s.p[c].(sending := true, sendto := d)))
    ensures SchedInv(QueueSender(s, c, d))
  {
    assert Members(QueueSender(s, c, d));
  }

  /** Between the halves of a call: the caller c has not yet received, and either it runs or a task has preempted it. */
  ghost predicate Mid(s: State, c: int, sd: int) {
    && SchedInv(s) && Members(s) && Rest(s) && s.Slot(c) && s.p[c].Live() && !s.p[c].receiving
    && if s.p[c].sending then sd == s.p[c].sendto && sd != s.Hardware()
       else s.p[c].Runnable() && (s.cur == c || TaskRuns(s))
  }

  lemma DeliverMid(s: State, c: int, d: int)
    requires Inv(s) && Members(s) && s.cur == c != s.IdleSlot() && s.Slot(d) && Waits(s.p[d], c)
    requires s.p[c].priority == User ==> s.p[d].priority != User
    ensures s.p[d].Live() && Mid(Deliver(s, d), c, d)
  {
    RunnerSound(s);
    DeliverKeeps(s, c, d);
    var r := Deliver(s, d);
    assert r.p[c] == s.p[c];
    assert r.cur == c || (r.cur == d && r.p[d].priority == Task);
  }

  lemma QueueSenderMid(s: State, c: int, d: int)
    requires Inv(s) && Members(s) && s.cur == c != s.IdleSlot() && c != d && s.Slot(d)
    requires SendStatus(s, c, d) == Ok && !Waits(s.p[d], c)
    ensures SchedInv(QueueSender(s, c, d)) && Rest(QueueSender(s, c, d))
    ensures d != s.Hardware() ==> Mid(QueueSender(s, c, d), c, d)
  {
    RunnerSound(s);
    QueueSenderKeeps(s, c, d);
  }

  lemma MiniSendKeeps(s: State, c: int, d: int)
    requires Inv(s) && Members(s) && s.cur == c != s.IdleSlot() && c != d
    requires s.p[c].priority == User || s.Slot(d)
    ensures SchedInv(MiniSend(s, c, d)) && Rest(MiniSend(s, c, d))
    ensures SendStatus(s, c, d) == Ok && d != s.Hardware() ==> Mid(MiniSend(s, c, d), c, d)
  {
    if SendStatus(s, c, d) == Ok {
      if Waits(s.p[d], c) {
        DeliverMid(s, c, d);
      } else {
        QueueSenderMid(s, c, d);
      }
    }
  }

  // ---------------------------------------------------------------- receiving

  lemma AcceptSenderKeeps(s: State, c: int, sd: int, x: int)
    requires Mid(s, c, sd) && !s.p[c].sending && x in s.cq[c]
    ensures s.Slot(x) && s.p[x].Live()
    ensures SchedInv(AcceptSender(s, c, x)) && Rest(AcceptSender(s, c, x))
  {
    assert SendsTo(s.p, x, c);
    SoundSlot(s.nt, s.p, s.cq, x);
    var e := s.p[x].(sending := false);
    var q := s.cq[c := Remove(s.cq[c], x)];
    AcceptKeeps(s.nt, s.p, s.cq, c, x);
    OtherFields(s.p, s.told, s.sigProcs, x, e);
    HeldUpdate(s.p, s.held, x, e);
    var t := s.(cq := q);
    assert LiveCallers(t.p, t.cq);
    AcceptSenderSched(s, t, c, x);
  }

  lemma AcceptSenderSched(s: State, t: State, c: int, x: int)
    requires SchedInv(s) && Members(s) && s.Slot(c) && s.Slot(x) && Members(t)
      && t == s.(cq := s.cq[c := Remove(s.cq[c], x)])
    requires s.p[x].Live() && s.p[x].sending && s.cur != s.IdleSlot()
      && (s.p[x].priority == User ==> s.p[s.cur].priority != User)
    ensures SchedInv(AcceptSender(s, c, x))
  {
    UnblockSched(t, x, s.p[x].(sending := false));
  }

  lemma TakeInterruptKeeps(s: State, c: int, sd: int)
    requires Mid(s, c, sd)
    ensures SchedInv(TakeInterrupt(s, c)) && Rest(TakeInterrupt(s, c))
  {
    var e := s.p[c].(intBlocked := false);
    SoundSlot(s.nt, s.p, s.cq, c);
    UpdateQueued(s, c, e);
    RestHarmless(s, TakeInterrupt(s, c), c, e);
  }

  /** inform() never panics: as long as sig_procs is positive there is a process with PENDING, from the servers on, and
      the send to a memory manager that listens is accepted and is a delivery. */
  lemma InformNeverPanics(s: State)
    requires Members(s) && Rest(s) && MmListens(s) && s.sigProcs > 0
    ensures FirstPending(s.p, s.nt) < |s.p| && s.p[FirstPending(s.p, s.nt)].pendingSet != {}
    ensures SendStatus(s, s.Hardware(), s.Mm()) == Ok && Waits(s.p[s.Mm()], s.Hardware())
    ensures s.p[s.Mm()].Live() && MiniSend(s, s.Hardware(), s.Mm()) == Deliver(s, s.Mm())
  {
    SoundSlot(s.nt, s.p, s.cq, s.Mm());
    var i :| i in PendingSlots(s.p);
    SoundSlot(s.nt, s.p, s.cq, i);
    var x := FirstPending(s.p, s.nt);
    if x < |s.p| { assert SigOk(s.p[x], s.told[x]); }
  }

  /** Telling the memory manager: the process stays blocked on SIG_PENDING, and pick_proc restores who runs. */
  lemma InformKeeps(s: State)
    requires SchedInv(s) && Members(s) && Rest(s) && MmListens(s)
    ensures !s.p[s.Mm()].sending && SendStatus(s, s.Hardware(), s.Mm()) == Ok
    ensures SchedInv(Inform(s)) && Rest(Inform(s))
  {
    hide MsgInv, SigInv;
    SoundSlot(s.nt, s.p, s.cq, s.Mm());
    var x := FirstPending(s.p, s.nt);
    if x < |s.p| {
      var m := s.p[s.Mm()].(receiving := false);
      var u := s.(sigProcs := s.sigProcs - 1);
      UnblockQueued(u, u.Mm(), m);
      var t := Deliver(u, u.Mm());
      InformUpdates(s, t.q, t.cur, x, m);
    }
  }

  lemma InformUpdates(s: State, q: seq<seq<int>>, cur: int, x: int, m: Proc)
    requires s.Wf() && Rest(s) && s.Slot(x) && s.p[x].pending && s.nt <= x && m == s.p[s.Mm()].(receiving := false)
    requires |q| == QUEUES && Queued(s.(p := s.p[s.Mm() := m], q := q, cur := cur))
    requires Members(s) && x == FirstPending(s.p, s.nt) && s.p[s.Mm()].Live()
    requires Deliver(s.(sigProcs := s.sigProcs - 1), s.Mm()) ==
      s.(sigProcs := s.sigProcs - 1, p := s.p[s.Mm() := m], q := q, cur := cur)
    ensures SchedInv(Inform(s)) && Rest(Inform(s))
  {
    hide Pick;
    var p := s.p[s.Mm() := m];
    var e := p[x].(pendingSet := {}, pending := false);
    InformRest(s, x, m, e);
    UpdateQueued(s.(p := p, q := q, cur := cur), x, e);
    var t := s.(sigProcs := s.sigProcs - 1, p := p[x := e], q := q, cur := cur,
      told := s.told[x := s.told[x] + |s.p[x].pendingSet|]);
    ExactMembers(t);
    PickSched(t);
    assert Inform(s) == Pick(t);
  }

  lemma InformRest(s: State, x: int, m: Proc, e: Proc)
    requires s.Wf() && Rest(s) && s.Slot(x) && s.p[x].pending && s.nt <= x && m == s.p[s.Mm()].(receiving := false)
    requires e == s.p[s.Mm() := m][x].(pendingSet := {}, pending := false)
    ensures e.sigPending && s.p[x].sigPending
    ensures Rest(s.(sigProcs := s.sigProcs - 1, p := s.p[s.Mm() := m][x := e],
      told := s.told[x := s.told[x] + |s.p[x].pendingSet|]))
  {
    var p := s.p[s.Mm() := m];
    SoundSlot(s.nt, s.p, s.cq, x);
    SoundSlot(s.nt, s.p, s.cq, s.Mm());
    assert SigOk(s.p[x], s.told[x]);
    HarmlessKeeps(s.nt, s.p, s.cq, s.Mm(), m);
    HarmlessKeeps(s.nt, p, s.cq, x, e);
    OtherFields(s.p, s.told, s.sigProcs, s.Mm(), m);
    UpdateSigInv(p, s.told, s.sigProcs, x, e, s.told[x] + |s.p[x].pendingSet|);
    HeldUpdate(s.p, s.held, s.Mm(), m);
    HeldUpdate(p, s.held, x, e);
  }

  lemma AwaitBlocks(s: State, c: int, src: int)
    requires SchedInv(s) && Members(s) && Rest(s) && s.Slot(c) && s.p[c].Live() && !s.p[c].receiving
    requires if s.p[c].sending then src == s.p[c].sendto && src != s.Hardware()
      else (forall j :: 0 <= j < |s.cq[c]| ==> !Accepts(src, s.cq[c][j])) &&
           !(s.p[c].intBlocked && RxHardware(s, src))
    ensures SchedInv(Block(s, c, s.p[c].(receiving := true, getfrom := src)))
    ensures Rest(Block(s, c, s.p[c].(receiving := true, getfrom := src)))
  {
    var e := s.p[c].(receiving := true, getfrom := src);
    BlockSched(s, c, e);
    AwaitKeeps(s.nt, s.p, s.cq, c, src);
    OtherFields(s.p, s.told, s.sigProcs, c, e);
    HeldUpdate(s.p, s.held, c, e);
  }

  lemma AwaitMessageKeeps(s: State, c: int, src: int)
    requires SchedInv(s) && Members(s) && Rest(s) && s.Slot(c) && s.p[c].Live() && !s.p[c].receiving
    requires if s.p[c].sending then src == s.p[c].sendto && src != s.Hardware()
      else (forall j :: 0 <= j < |s.cq[c]| ==> !Accepts(src, s.cq[c][j])) &&
           !(s.p[c].intBlocked && RxHardware(s, src))
    ensures SchedInv(AwaitMessage(s, c, src)) && Rest(AwaitMessage(s, c, src))
  {
    AwaitBlocks(s, c, src);
    var t := Block(s, c, s.p[c].(receiving := true, getfrom := src));
    if t.sigProcs > 0 && c == s.Mm() && src == ANY {
      InformKeeps(t);
    }
  }

  lemma MiniRecKeeps(s: State, c: int, src: int)
    requires Mid(s, c, src)
    ensures SchedInv(MiniRec(s, c, src)) && Rest(MiniRec(s, c, src))
  {
    var j := if s.p[c].sending then -1 else FindSender(s.cq[c], src);
    if j >= 0 {
      AcceptSenderKeeps(s, c, src, s.cq[c][j]);
    } else if !s.p[c].sending && s.p[c].intBlocked && RxHardware(s, src) {
      TakeInterruptKeeps(s, c, src);
    } else {
      AwaitMessageKeeps(s, c, src);
    }
  }

  lemma SendHalfKeeps(s: State, fn: Function, sd: int)
    requires Inv(s) && Members(s) && Enabled(s, SysCallStep(fn, sd)) && fn != Receive
      && (s.Slot(sd) || s.p[s.cur].priority == User)
    requires SendStatus(s, s.cur, sd) == Ok
    ensures Inv(MiniSend(s, s.cur, sd))
    ensures fn == Both ==> Mid(MiniSend(s, s.cur, sd), s.cur, sd)
  {
    assert sd != s.cur;
    assert fn == Both ==> sd != s.Hardware();
    MiniSendKeeps(s, s.cur, sd);
  }

  lemma SysCallKeeps(s: State, fn: Function, sd: int)
    requires Inv(s) && Enabled(s, SysCallStep(fn, sd))
    ensures Inv(Apply(s, SysCallStep(fn, sd)))
  {
    hide MsgInv, SigInv;
    ExactMembers(s);
    RunnerSound(s);
    if (s.Slot(sd) || sd == ANY) && (s.p[s.cur].priority == User ==> fn == Both) {
      if fn == Receive {
        assert Mid(s, s.cur, sd);
        MiniRecKeeps(s, s.cur, sd);
      } else if SendStatus(s, s.cur, sd) == Ok {
        SendHalfKeeps(s, fn, sd);
        if fn == Both { MiniRecKeeps(MiniSend(s, s.cur, sd), s.cur, sd); }
      }
    }
  }
}
