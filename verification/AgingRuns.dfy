/**
 What clock ticks do to the waiting counters of group 2, tick by tick and over whole runs.
 */
module AgingRuns {
  import opened KernelState
  import opened ReadyQueues
  import opened Messages
  import opened Rendezvous
  import opened Signals
  import opened SystemTask
  import opened KernelRuns
  import opened KernelSteps
  import opened Fairness
  import opened FairSteps
  import opened Bounds
  import opened QueueEffects

  // ---------------------------------------------------------------- one tick

  /** The round-robin half of a tick: a group-1 process that runs has one more tick on its account; at the end of its
      quantum the account is cleared and, unless it is alone, it goes to the end of its queue. Nothing else happens. */
  lemma QuantumEffect(s: State)
    requires Inv(s) && Members(s)
    ensures var q, used := s.q[G1_Q], s.rr[s.cur] + 1; var r := TickQuantum(s);
      if !(s.p[s.cur].priority == User && s.p[s.cur].group == 1) then r == s
      else if used < RR_QUANTUM then r == s.(rr := s.rr[s.cur := used])
      else
        var t := s.(rr := s.rr[s.cur := 0]);
        if |q| < 2 then r == t
        else Members(t.(q := t.q[G1_Q := q[1..] + [q[0]]])) && Picked(t.(q := t.q[G1_Q := q[1..] + [q[0]]]), r)
  {
    var t := s.(rr := s.rr[s.cur := 0]);
    hide Picked, Inv;
    if s.p[s.cur].Queue() == G1_Q && s.rr[s.cur] + 1 >= RR_QUANTUM {
      SchedEffect(t);
      assert t.rr[s.cur := 0] == t.rr;
    }
  }

  /** y is of group 2 and ready without running, or waits for a message. */
  predicate GrowsOlder(s: State, y: int)
    requires s.Wf() && s.Slot(y)
  {
    || (y in s.q[G2_Q] && y != s.cur)
    || (s.p[y].priority == User && s.p[y].group == 2 && (s.p[y].sending || s.p[y].receiving))
  }

  function Limited(w: int): int { if w < MAX_WAIT_TICKS then w else MAX_WAIT_TICKS }

  /** Every AGING_TICK ticks the counters of group 2 grow by one, up to the limit: those of all who wait, be it for the
      processor or for a message, when the round-robin half of the tick is over. Nothing else changes a counter. */
  lemma TickEffect(s: State, y: int)
    requires Inv(s) && Members(s) && s.Slot(y)
    ensures var t, r := TickQuantum(s), Tick(s);
      && r == t.(wait := r.wait, aging := r.aging)
      && (s.aging + 1 < AGING_TICK ==> r.aging == s.aging + 1 && r.wait == s.wait)
      && (s.aging + 1 >= AGING_TICK ==>
            r.aging == 0 && r.wait[y] == if GrowsOlder(t, y) then Limited(s.wait[y] + 1) else s.wait[y])
  {
    var t := TickQuantum(s);
    QuantumGentle(s, y);
    TickQuantumKeeps(s);
    if t.aging + 1 >= AGING_TICK {
      MembersTables(t);
      AgeQueueAt(t.wait, t.q[G2_Q], t.cur, y);
      AgeBlockedAt(AgeQueue(t.wait, t.q[G2_Q], t.cur), t.p, 0, y);
      assert y in t.q[G2_Q] <==> Belongs(t.p, G2_Q, y);
    }
  }

  // ---------------------------------------------------------------- other steps

  lemma SysCallAging(s: State, fn: Function, sd: int)
    requires Inv(s) && Members(s) && Enabled(s, SysCallStep(fn, sd))
    ensures Apply(s, SysCallStep(fn, sd)).aging == s.aging
  {
    hide Inv, Block, Unblock, Inform, SendStatus, Waits, FindSender, Pick;
  }

  lemma CauseSigAging(s: State, n: int, sig: int)
    requires Members(s) && s.Slot(n) && s.p[n].Live() && s.p[s.Mm()].Live()
    ensures CauseSig(s, n, sig).aging == s.aging
  {
    hide Members, Block, Inform;
  }

  lemma SignalStepsAging(s: State, st: Step)
    requires Inv(s) && Enabled(s, st) && (st.SignalStep? || st.EndSigStep? || st.ExecStep?)
    ensures Apply(s, st).aging == s.aging
  {
    ExactMembers(s);
    if st.SignalStep? || (st.ExecStep? && st.traced) {
      MmLive(s);
      CauseSigAging(s, st.n, if st.SignalStep? then st.sig else st.sigtrap);
    }
    hide SchedInv, MsgInv, SigInv, Unblock, Members, CauseSig;
  }

  lemma OtherStepsAging(s: State, st: Step)
    requires Inv(s) && Enabled(s, st) && st != TickStep
    ensures Apply(s, st).aging == s.aging
  {
    ExactMembers(s);
    if st.SysCallStep? {
      SysCallAging(s, st.fn, st.srcDest);
    } else if st.SignalStep? || st.EndSigStep? || st.ExecStep? {
      SignalStepsAging(s, st);
    } else {
      hide SchedInv, MsgInv, SigInv, Block, Unblock, Pick, Members, Unlink;
    }
  }

  // ---------------------------------------------------------------- runs

  /** x is ready in group 2 and somebody else runs. */
  ghost predicate AwaitsTurn2(s: State, x: int) {
    s.Wf() && s.Slot(x) && x in s.q[G2_Q] && x != s.cur
  }

  /** The step from s to t does not pick x, not even to pick another at once. */
  predicate NotChosen(s: State, t: State, x: int) {
    !(s.picks <= t.picks && x in t.picks[|s.picks|..])
  }

  /** x waits in every state of the run and is not picked. */
  ghost predicate PassedOver(run: seq<State>, x: int) {
    && (forall j :: 0 <= j < |run| ==> AwaitsTurn2(run[j], x))
    && (forall j :: 0 <= j < |run| - 1 ==> NotChosen(run[j], run[j + 1], x))
  }

  /** The ticks among the first n steps. */
  function Ticks(steps: seq<Step>, n: nat): nat
    requires n <= |steps|
  {
    if n == 0 then 0 else Ticks(steps, n - 1) + (if steps[n - 1] == TickStep then 1 else 0)
  }

  /** What one step means for the counter of a waiting process. */
  ghost predicate Aged(s: State, st: Step, t: State, x: int)
    requires s.Wf() && t.Wf() && s.Slot(x) && t.Slot(x)
  {
    if st != TickStep then t.aging == s.aging && t.wait[x] == s.wait[x]
    else if s.aging + 1 < AGING_TICK then t.aging == s.aging + 1 && t.wait[x] == s.wait[x]
    else t.aging == 0 && t.wait[x] == Limited(s.wait[x] + 1)
  }

  lemma StepAges(s: State, st: Step, t: State, x: int)
    requires Follows(s, st, t) && AwaitsTurn2(s, x) && AwaitsTurn2(t, x) && NotChosen(s, t, x)
    ensures Aged(s, st, t, x) && 0 <= s.aging < AGING_TICK
  {
    ExactMembers(s);
    AgingRange(s);
    hide SchedInv, MsgInv, SigInv, Members;
    if st == TickStep {
      TickAges(s, x);
    } else {
      WaitsPassed(s, x);
      StepGentle(s, st, x);
      OtherStepsAging(s, st);
    }
  }

  lemma TickAges(s: State, x: int)
    requires Inv(s) && Members(s) && AwaitsTurn2(s, x) && AwaitsTurn2(Tick(s), x)
    ensures Aged(s, TickStep, Tick(s), x)
  {
    hide Inv, Members;
    TickEffect(s, x);
    QuantumGentle(s, x);
  }

  lemma WaitsPassed(s: State, x: int)
    requires Inv(s) && AwaitsTurn2(s, x)
    ensures Passed(s, x)
  {
    assert x in s.q[G2_Q] <==> Belongs(s.p, G2_Q, x);
  }

  /** While x waits in group 2 and is not picked, its counter and the aging counter are fixed by the number of ticks. */
  lemma {:induction false} AgingExact(run: seq<State>, steps: seq<Step>, x: int, n: nat)
    requires Run(run, steps) && Inv(run[0]) && PassedOver(run, x) && n <= |steps|
    requires run[0].wait[x] <= MAX_WAIT_TICKS
    ensures AwaitsTurn2(run[n], x)
    ensures run[n].aging == (run[0].aging + Ticks(steps, n)) % AGING_TICK
    ensures run[n].wait[x] == Limited(run[0].wait[x] + (run[0].aging + Ticks(steps, n)) / AGING_TICK)
  {
    hide Inv, Run, Apply, AwaitsTurn2;
    RunLength(run, steps);
    assert AwaitsTurn2(run[n], x);
    if n == 0 {
      AgingRange(run[0]);
      assert run[0].Wf() by { AwaitsWf(run[0], x); }
    } else {
      AgingExact(run, steps, x, n - 1);
      RunStep(run, steps, n - 1);
      assert AwaitsTurn2(run[n - 1], x) && NotChosen(run[n - 1], run[n - 1 + 1], x);
      StepAges(run[n - 1], steps[n - 1], run[n], x);
    }
  }

  lemma AgingRange(s: State)
    requires Inv(s)
    ensures 0 <= s.aging < AGING_TICK
  {
  }

  lemma AwaitsWf(s: State, x: int)
    requires AwaitsTurn2(s, x)
    ensures s.Wf() && s.Slot(x)
  {
  }

  /** AGING_TICK ticks raise the counter of a waiting process by exactly one, below the limit, whatever else happens. */
  lemma AgingPeriod(run: seq<State>, steps: seq<Step>, x: int)
    requires Run(run, steps) && Inv(run[0]) && PassedOver(run, x)
    requires Ticks(steps, |steps|) == AGING_TICK && run[0].wait[x] < MAX_WAIT_TICKS
    ensures |run| == |steps| + 1 && AwaitsTurn2(run[|steps|], x) && run[|steps|].wait[x] == run[0].wait[x] + 1
    ensures run[|steps|].aging == run[0].aging
  {
    hide Inv, Run, AwaitsTurn2;
    AgingExact(run, steps, x, |steps|);
    RunLength(run, steps);
    AgingRange(run[0]);
    AwaitsWf(run[|steps|], x);
    assert AwaitsTurn2(run[0], x);
    AwaitsWf(run[0], x);
  }
}
