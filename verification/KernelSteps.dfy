/**
 The invariant across signals, process management, interrupts and ticks; and the theorem over all runs.
 */
module KernelSteps {
  import opened Lists
  import opened KernelState
  import opened ReadyQueues
  import opened Messages
  import opened Rendezvous
  import opened Signals
  import opened SystemTask
  import opened KernelRuns
  import opened KernelInvariant

  // ---------------------------------------------------------------- interrupts

  lemma InterruptKeeps(s: State, t: int)
    requires Inv(s) && Members(s) && IsTask(s.p, t)
    ensures Inv(Interrupt(s, t))
  {
    SoundSlot(s.nt, s.p, s.cq, t);
    if !(s.p[t].receiving && !s.p[t].sending && RxHardware(s, s.p[t].getfrom)) {
      var e := s.p[t].(intBlocked := true);
      HoldInterruptKeeps(s.nt, s.p, s.cq, t);
      OtherFields(s.p, s.told, s.sigProcs, t, e);
      HeldUpdate(s.p, s.held, t, e);
      UpdateQueued(s, t, e);
    } else {
      var e := s.p[t].(receiving := false, intBlocked := false);
      UnblockSched(s, t, e);
      assert Interrupt(s, t) == Unblock(s, t, e);
      RestHarmless(s, Interrupt(s, t), t, e);
    }
  }

  lemma HoldKeeps(s: State, t: int)
    requires Inv(s) && IsTask(s.p, t)
    ensures Inv(HoldInterrupt(s, t))
  {
    if t !in s.held { NoDupAppend(s.held, t); }
  }

  /** What becomes of an interrupt: its task has been readied, or the interrupt is on record. */
  ghost predicate Served(p: seq<Proc>, r: seq<Proc>, t: int) {
    && 0 <= t < |p| == |r|
    && (r[t].intBlocked || (p[t].receiving && !r[t].receiving))
  }

  lemma HeldHead(s: State)
    requires Inv(s) && s.held != []
    ensures Members(s.(held := s.held[1..])) && Inv(s.(held := s.held[1..])) && IsTask(s.p, s.held[0])
      && s.held[0] !in s.held[1..]
  {
    ExactMembers(s);
    var rest := s.held[1..];
    assert forall j :: 0 <= j < |rest| ==> rest[j] == s.held[j + 1];
    assert HeldInv(s.p, rest);
  }

  lemma UnholdFirst(s: State, t: State)
    requires Inv(s) && s.held != [] && Members(s.(held := s.held[1..])) && IsTask(s.p, s.held[0])
    requires t == Interrupt(s.(held := s.held[1..]), s.held[0])
    ensures Inv(t) && Members(t) && t.held == s.held[1..] && |t.p| == |s.p| && Served(s.p, t.p, s.held[0])
    ensures forall i :: 0 <= i < |s.p| && i != s.held[0] ==> t.p[i] == s.p[i]
  {
    HeldHead(s);
    InterruptKeeps(s.(held := s.held[1..]), s.held[0]);
  }

  /** One round of unhold keeps the invariant, whatever has arrived since the last. */
  lemma ServeHeldKeeps(s: State)
    requires Inv(s) && s.held != []
    ensures Inv(Apply(s, ServeHeldStep))
  {
    HeldHead(s);
    UnholdFirst(s, Apply(s, ServeHeldStep));
  }

  lemma {:induction false} HoldAllKeeps(s: State, ts: seq<int>)
    requires Inv(s) && Tasks(s.p, ts)
    ensures Inv(HoldAll(s, ts)) && forall j :: 0 <= j < |ts| ==> ts[j] in HoldAll(s, ts).held
    decreases |ts|
  {
    hide Inv;
    if ts != [] {
      var u := HoldInterrupt(s, ts[0]);
      HoldKeeps(s, ts[0]);
      assert forall j :: 0 <= j < |ts| - 1 ==> ts[1..][j] == ts[j + 1];
      HoldAllKeeps(u, ts[1..]);
      assert ts[0] in u.held;
    }
  }

  lemma UnholdRoundKeeps(s: State, ts: seq<int>)
    requires Inv(s) && Members(s) && s.held != [] && Tasks(s.p, s.held) && Tasks(s.p, ts)
    ensures var u := UnholdRound(s, ts);
      && Inv(u) && |u.p| == |s.p| && s.held[1..] <= u.held && (forall t :: t in ts ==> t in u.held)
      && Served(s.p, u.p, s.held[0]) && (u.p[s.held[0]].receiving ==> s.p[s.held[0]].receiving)
      && forall i :: 0 <= i < |s.p| && i != s.held[0] ==> u.p[i] == s.p[i]
  {
    hide Inv;
    HeldHead(s);
    var t := Interrupt(s.(held := s.held[1..]), s.held[0]);
    UnholdFirst(s, t);
    HoldAllKeeps(t, ts);
  }

  /** What a flush leaves: the held interrupts are repeated in their order, and what arrives in a round is repeated in a
      later one; each of them is served, and no other process changes. */
  ghost predicate Flushed(p: seq<Proc>, held: seq<int>, arrivals: seq<seq<int>>, r: seq<Proc>, log: seq<int>) {
    && |r| == |p| && held <= log
    && (forall j :: 0 <= j < |log| ==> Served(p, r, log[j]))
    && (forall i :: 0 <= i < |p| && i !in log ==> r[i] == p[i])
    && (forall k, t :: 0 <= k < |arrivals| && k < |log| && t in arrivals[k] ==> t in log[k + 1..])
  }

  lemma FlushedRound(p: seq<Proc>, held: seq<int>, arrivals: seq<seq<int>>, u: seq<Proc>, now: seq<int>, r: seq<Proc>,
                     more: seq<int>)
    requires Flushed(u, now, LaterRounds(arrivals), r, more)
    requires held != [] && held[1..] <= now && forall t :: t in ThisRound(arrivals) ==> t in now
    requires Served(p, u, held[0]) && (u[held[0]].receiving ==> p[held[0]].receiving)
    requires forall i :: 0 <= i < |p| && i != held[0] ==> u[i] == p[i]
    ensures Flushed(p, held, arrivals, r, [held[0]] + more)
  {
    var log := [held[0]] + more;
    assert held == [held[0]] + held[1..];
    forall j | 0 <= j < |log| ensures Served(p, r, log[j]) {
      if log[j] in more { assert Served(u, r, log[j]); }
    }
    forall i | 0 <= i < |p| && i !in log ensures r[i] == p[i] {
      assert i != log[0] && i !in log[1..];
    }
    forall k, t | 0 <= k < |arrivals| && k < |log| && t in arrivals[k] ensures t in log[k + 1..] {
      assert log[k + 1..] == more[k..];
      if k > 0 {
        assert t in LaterRounds(arrivals)[k - 1];
      } else {
        assert t in now && now == more[..|now|];
      }
    }
  }

  /** The flush keeps the invariant and loses no interrupt, whatever arrives meanwhile. */
  lemma {:induction false} UnholdKeeps(s: State, arrivals: seq<seq<int>>)
    requires Inv(s) && Members(s) && Tasks(s.p, s.held) && AllTasks(s.p, arrivals)
    ensures Inv(Unhold(s, arrivals)) && Unhold(s, arrivals).held == []
    ensures Flushed(s.p, s.held, arrivals, Unhold(s, arrivals).p, Repeated(s, arrivals))
    decreases |arrivals|, |s.held|
  {
    if s.held != [] {
      var now := ThisRound(arrivals);
      var u := UnholdRound(s, now);
      UnholdRoundKeeps(s, now);
      hide Inv, Flushed, UnholdRound, Served;
      UnholdKeeps(u, LaterRounds(arrivals));
      FlushedRound(s.p, s.held, arrivals, u.p, u.held, Unhold(s, arrivals).p, Repeated(u, LaterRounds(arrivals)));
    }
  }

  // ---------------------------------------------------------------- signals

  lemma SignalBlocks(s: State, n: int, e: Proc, t: State)
    requires Inv(s) && Members(s) && IsUser(s, n) && !s.p[n].pending
    requires SigOk(e, s.told[n]) && e.pending && e.sigPending
    requires e == s.p[n].(pending := true, sigPending := true, pendingSet := e.pendingSet, pendcount := e.pendcount)
    requires t == Block(s, n, e).(sigProcs := s.sigProcs + 1)
    ensures SchedInv(t) && Rest(t)
  {
    BlockSched(s, n, e);
    SchedFrame(Block(s, n, e), t);
    HarmlessKeeps(s.nt, s.p, s.cq, n, e);
    UpdateSigInv(s.p, s.told, s.sigProcs, n, e, s.told[n]);
    assert s.told[n := s.told[n]] == s.told;
    HeldUpdate(s.p, s.held, n, e);
  }

  /** Another signal for a process that is already pending. */
  lemma SignalMoreKeeps(s: State, n: int, e: Proc)
    requires Inv(s) && Members(s) && IsUser(s, n) && s.p[n].pending && SigOk(e, s.told[n])
    requires e.pending && e.sigPending
      && e == s.p[n].(sigPending := true, pendingSet := e.pendingSet, pendcount := e.pendcount)
    ensures Inv(SignalMore(s, n, e))
  {
    SoundSlot(s.nt, s.p, s.cq, n);
    UpdateQueued(s, n, e);
    HarmlessKeeps(s.nt, s.p, s.cq, n, e);
    UpdateSigInv(s.p, s.told, s.sigProcs, n, e, s.told[n]);
    assert s.told[n := s.told[n]] == s.told;
    HeldUpdate(s.p, s.held, n, e);
  }

  lemma SignalFirstKeeps(s: State, n: int, e: Proc, t: State)
    requires Inv(s) && Members(s) && IsUser(s, n) && !s.p[n].pending
    requires SigOk(e, s.told[n]) && e.pending && e.sigPending
    requires e == s.p[n].(pending := true, sigPending := true, pendingSet := e.pendingSet, pendcount := e.pendcount)
    requires t == Block(s, n, e).(sigProcs := s.sigProcs + 1)
    ensures Members(t) && t.p[t.Mm()].Live() && Inv(if MmListens(t) then Inform(t) else t)
  {
    SignalBlocks(s, n, e, t);
    ExactMembers(t);
    if MmListens(t) { InformKeeps(t); }
  }

  lemma MmLive(s: State)
    requires Inv(s)
    ensures s.p[s.Mm()].Live()
  {
    SoundSlot(s.nt, s.p, s.cq, s.Mm());
  }

  lemma FirstSignalKeeps(s: State, n: int, e: Proc)
    requires Inv(s) && Members(s) && IsUser(s, n) && !s.p[n].pending
    requires SigOk(e, s.told[n]) && e.pending && e.sigPending
    requires e == s.p[n].(pending := true, sigPending := true, pendingSet := e.pendingSet, pendcount := e.pendcount)
    ensures s.p[s.Mm()].Live() && Inv(SignalFirst(s, n, e))
  {
    MmLive(s);
    hide Inv, SigOk, Block, Inform, Members;
    SignalFirstKeeps(s, n, e, Block(s, n, e).(sigProcs := s.sigProcs + 1));
  }

  lemma WithSignalOk(e: Proc, told: int, sig: int)
    requires SigOk(e, told) && sig !in e.pendingSet
    ensures if e.pending then SigOk(WithSignal(e, sig), told) && e.sigPending
            else SigOk(WithSignal(e, sig).(pending := true, sigPending := true), told)
  {
    if e.pending { assert |e.pendingSet| > 0; }
  }

  lemma CauseSigKeeps(s: State, n: int, sig: int)
    requires Inv(s) && Members(s) && IsUser(s, n)
    ensures s.p[s.Mm()].Live() && Inv(CauseSig(s, n, sig))
  {
    if sig !in s.p[n].pendingSet {
      assert SigOk(s.p[n], s.told[n]);
      WithSignalOk(s.p[n], s.told[n], sig);
      var e := WithSignal(s.p[n], sig);
      if s.p[n].pending {
        SignalMoreKeeps(s, n, e);
      } else {
        FirstSignalKeeps(s, n, e.(pending := true, sigPending := true));
      }
    }
  }

  /** A user is made ready while a task runs. */
  lemma UserUnblocks(s: State, n: int, e: Proc)
    requires SchedInv(s) && Members(s) && TaskRuns(s) && IsUser(s, n) && !s.p[n].Runnable() && SameClass(e, s.p[n])
    ensures SchedInv(Unblock(s, n, e))
  {
    UnblockSched(s, n, e);
  }

  lemma EndSigKeeps(s: State, n: int)
    requires Inv(s) && Members(s) && Enabled(s, EndSigStep(n))
    ensures Inv(EndSig(s, n).1)
  {
    hide MsgInv;
    assert SigOk(s.p[n], s.told[n]);
    SoundSlot(s.nt, s.p, s.cq, n);
    if s.p[n].priority == User && s.p[n].pendcount != 0 {
      var c := s.p[n].pendcount - 1;
      var e := s.p[n].(pendcount := c, sigPending := c != 0);
      HarmlessKeeps(s.nt, s.p, s.cq, n, e);
      UpdateSigInv(s.p, s.told, s.sigProcs, n, e, s.told[n] - 1);
      HeldUpdate(s.p, s.held, n, e);
      var t := s.(told := s.told[n := s.told[n] - 1]);
      if c == 0 { UserUnblocks(t, n, e); } else { UpdateQueued(t, n, e); }
    }
  }

  /** do_endsig never readies a process already queued: the last signal it ends is the one it was blocked for. */
  lemma EndSigReadiesBlocked(s: State, n: int)
    requires Inv(s) && Members(s) && Enabled(s, EndSigStep(n)) && s.p[n].pendcount == 1
    ensures !s.p[n].Runnable() && !EndSig(s, n).1.p[n].sigPending
    ensures EndSig(s, n).1.p[n].Runnable() <==> s.p[n].(sigPending := false).Runnable()
  {
    assert SigOk(s.p[n], s.told[n]);
    SoundSlot(s.nt, s.p, s.cq, n);
  }

  // ---------------------------------------------------------------- fork, newmap, exec, exit

  lemma ForkKeeps(s: State, parent: int, child: int)
    requires Inv(s) && Enabled(s, ForkStep(parent, child))
    ensures Inv(Fork(s, parent, child))
  {
    var e := Fork(s, parent, child).p[child];
    SoundSlot(s.nt, s.p, s.cq, parent);
    SoundSlot(s.nt, s.p, s.cq, child);
    assert SigOk(s.p[child], s.told[child]);
    CopyKeeps(s.nt, s.p, s.cq, parent, child, e);
    UpdateSigInv(s.p, s.told, s.sigProcs, child, e, 0);
    HeldUpdate(s.p, s.held, child, e);
    ForkSched(s, parent, child, e);
  }

  lemma ForkSched(s: State, parent: int, child: int, e: Proc)
    requires Inv(s) && Enabled(s, ForkStep(parent, child)) && e == Fork(s, parent, child).p[child]
      && s.p[child].Runnable()
    ensures SchedInv(Fork(s, parent, child))
  {
    ReplaceQueued(s, child, e);
    var r := Fork(s, parent, child);
    assert LiveCallers(r.p, r.cq);
  }

  lemma NewMapKeeps(s: State, n: int)
    requires Inv(s) && Members(s) && TaskRuns(s)
    ensures Inv(NewMap(s, n).1)
  {
    if s.Slot(n) && !s.p[n].Runnable() && s.p[n].Live() {
      var e := s.p[n].(noMap := false);
      SoundSlot(s.nt, s.p, s.cq, n);
      if s.p[n].priority == User {
        UserUnblocks(s, n, e);
      } else {
        UpdateQueued(s, n, e);
      }
      RestHarmless(s, NewMap(s, n).1, n, e);
    }
  }

  lemma ReceiveEnds(s: State, n: int)
    requires Inv(s) && Members(s) && TaskRuns(s) && IsUser(s, n) && s.p[n].receiving
    ensures Inv(Unblock(s, n, s.p[n].(receiving := false)))
  {
    var e := s.p[n].(receiving := false);
    SoundSlot(s.nt, s.p, s.cq, n);
    UserUnblocks(s, n, e);
    RestHarmless(s, Unblock(s, n, e), n, e);
  }

  lemma ExecKeeps(s: State, n: int, traced: bool, sigtrap: int)
    requires Inv(s) && Members(s) && Enabled(s, ExecStep(n, traced, sigtrap))
    ensures s.p[s.Mm()].Live() && Inv(Exec(s, n, traced, sigtrap))
  {
    if traced {
      CauseSigKeeps(s, n, sigtrap);
      CauseSigKeepsTarget(s, n, sigtrap);
      ReceiveEnds(CauseSig(s, n, sigtrap), n);
    } else {
      ReceiveEnds(s, n);
    }
  }

  /** A running task keeps running while the task queue stays as it is. */
  lemma TaskStays(s: State, t: State)
    requires SchedInv(s) && SchedInv(t) && TaskRuns(s) && t.nt == s.nt
    requires t.q[TASK_Q] == s.q[TASK_Q] && |t.p| == |s.p| && t.p[s.cur].priority == Task
    ensures TaskRuns(t) && t.cur == s.cur
  {
  }

  lemma InformTasks(s: State)
    requires Members(s) && s.p[s.Mm()].priority == Server
    ensures Inform(s).q[TASK_Q] == s.q[TASK_Q] && |Inform(s).p| == |s.p|
    ensures forall i :: 0 <= i < |s.p| ==>
      Inform(s).p[i].priority == s.p[i].priority && (i != s.Mm() ==> Inform(s).p[i].receiving == s.p[i].receiving)
  {
  }

  lemma SignalFirstTasks(s: State, n: int, e: Proc)
    requires Members(s) && IsUser(s, n) && !s.p[n].Runnable() && SameClass(e, s.p[n]) && s.p[s.Mm()].priority == Server
    ensures SignalFirst(s, n, e).q[TASK_Q] == s.q[TASK_Q] && |SignalFirst(s, n, e).p| == |s.p|
      && SignalFirst(s, n, e).nt == s.nt
    ensures forall i :: 0 <= i < |s.p| ==> SignalFirst(s, n, e).p[i].priority == s.p[i].priority
    ensures SignalFirst(s, n, e).p[n].receiving == e.receiving
  {
    var t := Block(s, n, e).(sigProcs := s.sigProcs + 1);
    if MmListens(t) { InformTasks(t); }
  }

  lemma CauseSigTasks(s: State, n: int, sig: int)
    requires Members(s) && IsUser(s, n) && !s.p[n].Runnable() && s.p[s.Mm()].priority == Server
    ensures CauseSig(s, n, sig).q[TASK_Q] == s.q[TASK_Q] && |CauseSig(s, n, sig).p| == |s.p|
      && CauseSig(s, n, sig).nt == s.nt
    ensures forall i :: 0 <= i < |s.p| ==> CauseSig(s, n, sig).p[i].priority == s.p[i].priority
    ensures CauseSig(s, n, sig).p[n].receiving == s.p[n].receiving
  {
    if sig !in s.p[n].pendingSet && !s.p[n].pending {
      var e := WithSignal(s.p[n], sig).(pending := true, sigPending := true);
      SignalFirstTasks(s, n, e);
      assert CauseSig(s, n, sig) == SignalFirst(s, n, e);
    }
  }

  /** Signalling a blocked process leaves it waiting and the running task running. */
  lemma CauseSigKeepsTarget(s: State, n: int, sig: int)
    requires Inv(s) && Members(s) && TaskRuns(s) && IsUser(s, n) && s.p[n].receiving
    ensures s.p[s.Mm()].Live() && TaskRuns(CauseSig(s, n, sig)) && IsUser(CauseSig(s, n, sig), n)
    ensures CauseSig(s, n, sig).p[n].receiving
  {
    CauseSigKeeps(s, n, sig);
    CauseSigTasks(s, n, sig);
    TaskStays(s, CauseSig(s, n, sig));
  }

  // ---------------------------------------------------------------- exit, tracing, setgroup

  lemma ExitKeeps(s: State, n: int)
    requires Inv(s) && Members(s) && Enabled(s, ExitStep(n))
    ensures s.p[n].sending ==> s.Slot(s.p[n].sendto)
    ensures Inv(Xit(s, n))
  {
    SoundSlot(s.nt, s.p, s.cq, n);
    assert SigOk(s.p[n], s.told[n]);
    var e := Xit(s, n).p[n];
    DiscardKeeps(s.nt, s.p, s.cq, n, e);
    UpdateSigInv(s.p, s.told, s.sigProcs, n, e, 0);
    HeldUpdate(s.p, s.held, n, e);
    ExitSched(s, n, e);
  }

  lemma ExitSched(s: State, n: int, e: Proc)
    requires Inv(s) && Members(s) && Enabled(s, ExitStep(n)) && (s.p[n].sending ==> s.Slot(s.p[n].sendto))
    requires e == Xit(s, n).p[n] && forall d :: 0 <= d < |s.p| ==> n !in Unlink(s.p, s.cq, n)[d]
    ensures SchedInv(Xit(s, n))
  {
    hide MsgInv, SigInv;
    var t := s.(cq := Unlink(s.p, s.cq, n), told := s.told[n := 0],
                sigProcs := if s.p[n].pending then s.sigProcs - 1 else s.sigProcs);
    assert LiveCallers(t.p, t.cq);
    assert NotQueued(t.cq, n) by {
      forall d, j | 0 <= d < |t.cq| && 0 <= j < |t.cq[d]| ensures t.cq[d][j] != n { assert t.cq[d][j] in t.cq[d]; }
    }
    BlockSched(t, n, e);
  }

  lemma StopKeeps(s: State, n: int)
    requires Inv(s) && Members(s) && IsUser(s, n)
    ensures Inv(Stop(s, n))
  {
    var e := s.p[n].(stopped := true);
    SoundSlot(s.nt, s.p, s.cq, n);
    BlockSched(s, n, e);
    RestHarmless(s, Stop(s, n), n, e);
  }

  lemma ResumeKeeps(s: State, n: int)
    requires Inv(s) && Members(s) && TaskRuns(s) && IsUser(s, n) && s.p[n].stopped
    ensures Inv(Resume(s, n))
  {
    var e := s.p[n].(stopped := false);
    SoundSlot(s.nt, s.p, s.cq, n);
    UserUnblocks(s, n, e);
    RestHarmless(s, Resume(s, n), n, e);
  }

  lemma SetGroupSched(s: State, n: int, e: Proc, t: State)
    requires SchedInv(s) && s.Slot(n) && s.p[n].Live() && !s.p[n].Runnable() && n != s.IdleSlot()
    requires e.Live() && !e.Runnable() && t == s.(p := s.p[n := e], wait := s.wait[n := 0], rr := s.rr[n := 0])
    ensures SchedInv(t)
  {
    ReplaceQueued(s, n, e);
  }

  lemma SetGroupRest(s: State, n: int, e: Proc, t: State)
    requires Inv(s) && s.Wf() && s.Slot(n) && s.p[n].priority == User && SchedInv(t)
    requires e == s.p[n].(group := e.group, estimate := e.estimate)
    requires t == s.(p := s.p[n := e], wait := s.wait[n := 0], rr := s.rr[n := 0])
    ensures Inv(t)
  {
    hide SchedInv;
    HarmlessKeeps(s.nt, s.p, s.cq, n, e);
    OtherFields(s.p, s.told, s.sigProcs, n, e);
    HeldUpdate(s.p, s.held, n, e);
  }

  lemma SetGroupKeeps(s: State, n: int, g: int, est: int)
    requires Inv(s) && s.Slot(n) && (s.p[n].priority == User ==> !s.p[n].Runnable())
    ensures Inv(SetGroup(s, n, g, est).1)
  {
    if s.p[n].priority == User {
      hide MsgInv, SigInv;
      var e := s.p[n].(group := g, estimate := if g == 3 then est else 100);
      SetGroupSched(s, n, e, SetGroup(s, n, g, est).1);
      SetGroupRest(s, n, e, SetGroup(s, n, g, est).1);
    }
  }

  // ---------------------------------------------------------------- ticks

  lemma TickQuantumKeeps(s: State)
    requires Inv(s) && Members(s)
    ensures Inv(TickQuantum(s)) && TickQuantum(s).aging == s.aging
  {
    if s.p[s.cur].Queue() == G1_Q && s.rr[s.cur] + 1 >= RR_QUANTUM {
      SchedKeepsInv(s.(rr := s.rr[s.cur := 0]));
    }
  }

  lemma TickKeeps(s: State)
    requires Inv(s) && Members(s)
    ensures Inv(Tick(s))
  {
    TickQuantumKeeps(s);
    var t := TickQuantum(s);
    if t.aging + 1 >= AGING_TICK {
      WaitDoesNotMatter(t, Age(t).wait, 0);
    } else {
      WaitDoesNotMatter(t, t.wait, t.aging + 1);
    }
  }

  lemma WaitDoesNotMatter(s: State, wait: seq<int>, aging: int)
    requires Inv(s) && |wait| == |s.wait| && 0 <= aging < AGING_TICK
    ensures Inv(s.(wait := wait, aging := aging))
  {
  }

  lemma RescheduleKeeps(s: State)
    requires Inv(s) && Members(s)
    ensures Inv(Sched(s))
  {
    SchedKeepsInv(s);
  }

  // ---------------------------------------------------------------- all steps, all runs

  lemma StepKeepsInv(s: State, st: Step)
    requires Inv(s) && Enabled(s, st)
    ensures Inv(Apply(s, st))
  {
    ExactMembers(s);
    match st
    case SysCallStep(fn, sd) => SysCallKeeps(s, fn, sd);
    case InterruptStep(t) => InterruptKeeps(s, t);
    case HoldStep(t) => HoldKeeps(s, t);
    case ServeHeldStep => ServeHeldKeeps(s);
    case SignalStep(n, sig) => CauseSigKeeps(s, n, sig);
    case EndSigStep(n) => EndSigKeeps(s, n);
    case ForkStep(parent, child) => ForkKeeps(s, parent, child);
    case NewMapStep(n) => NewMapKeeps(s, n);
    case ExecStep(n, traced, sigtrap) => ExecKeeps(s, n, traced, sigtrap);
    case ExitStep(n) => ExitKeeps(s, n);
    case StopStep(n) => StopKeeps(s, n);
    case ResumeStep(n) => ResumeKeeps(s, n);
    case SetGroupStep(n, g, e) => SetGroupKeeps(s, n, g, e);
    case TickStep => TickKeeps(s);
    case RescheduleStep => RescheduleKeeps(s);
  }
}
