/**
 The bounds over runs: a group-1 process reaches the head of its queue within RR_QUANTUM ticks per process
 ahead of it, and a waiting group-2 process is bypassed at most once by each rival.
 */
module Bounds {
  import opened Lists
  import opened KernelState
  import opened ReadyQueues
  import opened SystemTask
  import opened KernelRuns
  import opened KernelSteps
  import opened KernelTheorem
  import opened Fairness
  import opened FairSteps

  // ---------------------------------------------------------------- round robin

  /** x waits its turn in group 1. */
  ghost predicate AwaitsTurn(s: State, x: int) {
    s.Wf() && s.Slot(x) && x in s.q[G1_Q] && s.q[G1_Q][0] != x
  }

  predicate GroupTick(s: State, st: Step) {
    st == TickStep && s.Slot(s.cur) && s.p[s.cur].Queue() == G1_Q
  }

  lemma TurnPassed(s: State, x: int)
    requires SchedInv(s) && AwaitsTurn(s, x)
    ensures Passed(s, x)
  {
    assert Belongs(s.p, G1_Q, x);
    assert s.p[x].Queue() == G1_Q;
  }

  lemma {:induction false} AheadAfterRotate(q: seq<int>, rr: seq<int>, x: int)
    requires InTable(q, |rr|) && x in q && q[0] != x
    ensures InTable(Rotate(q), |rr|)
    ensures Ahead(Rotate(q), rr, x) == Ahead(q, rr, x) - (RR_QUANTUM - rr[q[0]])
  {
    var r := Rotate(q);
    forall j | 0 <= j < |r| ensures 0 <= r[j] < |rr| { assert r[j] == q[if j == |q| - 1 then 0 else j + 1]; }
    assert x in q[1..];
    AheadAfterAppend(q[1..], rr, x, q[0]);
  }

  lemma {:induction false} AheadAfterCount(q: seq<int>, rr: seq<int>, x: int, i: int, n: int)
    requires InTable(q, |rr|) && NoDup(q) && 0 <= i < |rr|
    ensures i !in q ==> Ahead(q, rr[i := n], x) == Ahead(q, rr, x)
    ensures q != [] && q[0] == i && i != x ==> Ahead(q, rr[i := n], x) == Ahead(q, rr, x) + rr[i] - n
  {
    if i !in q {
      AheadSame(q, rr, rr[i := n], x);
    } else if q[0] == i && i != x {
      assert i !in q[1..];
      AheadSame(q[1..], rr, rr[i := n], x);
    }
  }

  /** A tick taken while group 1 runs uses up one of the ticks that the head may still take. */
  lemma TickAdvances(s: State, x: int)
    requires Inv(s) && Members(s) && AwaitsTurn(s, x)
    ensures Tables(s) && Tables(Tick(s))
    ensures Ahead(Tick(s).q[G1_Q], Tick(s).rr, x) ==
      Ahead(s.q[G1_Q], s.rr, x) - (if GroupTick(s, TickStep) then 1 else 0)
  {
    MembersTables(s);
    MembersTables(Tick(s));
    var q, c := s.q[G1_Q], s.cur;
    if GroupTick(s, TickStep) {
      assert q[0] == c;
      var n := if s.rr[c] + 1 >= RR_QUANTUM then 0 else s.rr[c] + 1;
      AheadAfterCount(q, s.rr, x, c, n);
      if n == 0 {
        assert |q| >= 2;
        assert s.rr[c] == RR_QUANTUM - 1;
        AheadAfterRotate(q, s.rr[c := 0], x);
        assert TickQuantum(s).rr == s.rr[c := 0] && TickQuantum(s).q[G1_Q] == Rotate(q);
      }
    }
  }

  /** The number of group-1 ticks among the first n steps of a run. */
  function GroupTicks(run: seq<State>, steps: seq<Step>, n: nat): nat
    requires n <= |steps| <= |run|
  {
    if n == 0 then 0
    else GroupTicks(run, steps, n - 1) + (if GroupTick(run[n - 1], steps[n - 1]) then 1 else 0)
  }

  /** x waits its turn in every state of the run. */
  ghost predicate WaitsThroughout(run: seq<State>, x: int) {
    forall j :: 0 <= j < |run| ==> AwaitsTurn(run[j], x)
  }

  lemma TurnStep(s: State, st: Step, x: int)
    requires Inv(s) && Enabled(s, st) && AwaitsTurn(s, x) && AwaitsTurn(Apply(s, st), x)
    ensures Tables(s) && Tables(Apply(s, st))
    ensures Ahead(Apply(s, st).q[G1_Q], Apply(s, st).rr, x) <=
      Ahead(s.q[G1_Q], s.rr, x) - (if GroupTick(s, st) then 1 else 0)
  {
    ExactMembers(s);
    TurnPassed(s, x);
    if st == TickStep { TickAdvances(s, x); } else { StepGentle(s, st, x); }
  }

  lemma {:induction false} TicksBounded(run: seq<State>, steps: seq<Step>, x: int, n: nat)
    requires Run(run, steps) && Inv(run[0]) && WaitsThroughout(run, x) && n <= |steps|
    ensures Tables(run[0]) && Tables(run[n])
    ensures GroupTicks(run, steps, n) + Ahead(run[n].q[G1_Q], run[n].rr, x) <= Ahead(run[0].q[G1_Q], run[0].rr, x)
  {
    hide Inv, Run, Apply, AwaitsTurn, Tables, Ahead, GroupTick;
    RunLength(run, steps);
    InvTables(run[0]);
    if n > 0 {
      TicksBounded(run, steps, x, n - 1);
      RunStep(run, steps, n - 1);
      assert AwaitsTurn(run[n - 1], x) && AwaitsTurn(run[n], x);
      FollowsTurn(run[n - 1], steps[n - 1], run[n], x);
    }
  }

  lemma InvTables(s: State)
    requires Inv(s)
    ensures Tables(s)
  {
    ExactMembers(s);
    MembersTables(s);
  }

  lemma FollowsTurn(s: State, st: Step, t: State, x: int)
    requires Follows(s, st, t) && AwaitsTurn(s, x) && AwaitsTurn(t, x)
    ensures Tables(s) && Tables(t)
    ensures Ahead(t.q[G1_Q], t.rr, x) <= Ahead(s.q[G1_Q], s.rr, x) - (if GroupTick(s, st) then 1 else 0)
  {
    TurnStep(s, st, x);
  }

  lemma {:induction false} AheadRange(q: seq<int>, rr: seq<int>, k: nat)
    requires InTable(q, |rr|) && k < |q| && NoDup(q) && forall j :: 0 <= j < |rr| ==> 0 <= rr[j] < RR_QUANTUM
    ensures k <= Ahead(q, rr, q[k]) <= RR_QUANTUM * k
  {
    if k > 0 {
      assert q[0] != q[k] && q[1..][k - 1] == q[k];
      AheadRange(q[1..], rr, k - 1);
    }
  }

  /**
   Round robin: as long as a group-1 process with k others ahead is kept waiting, group 1 has used fewer than
   RR_QUANTUM * k ticks, whatever the other processes do meanwhile.
   */
  lemma RoundRobinBound(run: seq<State>, steps: seq<Step>, k: nat)
    requires Run(run, steps) && Inv(run[0]) && run[0].Wf() && k < |run[0].q[G1_Q]|
      && WaitsThroughout(run, run[0].q[G1_Q][k])
    ensures GroupTicks(run, steps, |steps|) < RR_QUANTUM * k
  {
    var n := |steps|;
    var x := run[0].q[G1_Q][k];
    TicksBounded(run, steps, x, n);
    RunKeepsInv(run, steps, n);
    assert AwaitsTurn(run[n], x);
    AheadAtPlace(run[0], k);
    AheadPositive(run[n], x);
  }

  lemma AheadAtPlace(s: State, k: nat)
    requires Inv(s) && Tables(s) && k < |s.q[G1_Q]|
    ensures Ahead(s.q[G1_Q], s.rr, s.q[G1_Q][k]) <= RR_QUANTUM * k
  {
    AheadRange(s.q[G1_Q], s.rr, k);
  }

  lemma AheadPositive(s: State, x: int)
    requires Inv(s) && Tables(s) && AwaitsTurn(s, x)
    ensures Ahead(s.q[G1_Q], s.rr, x) > 0
  {
    var j :| 0 <= j < |s.q[G1_Q]| && s.q[G1_Q][j] == x;
    AheadRange(s.q[G1_Q], s.rr, j);
  }

  // ---------------------------------------------------------------- aging

  lemma {:induction false} AgeQueueAt(wait: seq<int>, q: seq<int>, cur: int, y: int)
    requires InTable(q, |wait|) && NoDup(q) && 0 <= y < |wait|
    ensures AgeQueue(wait, q, cur)[y] == if y in q && y != cur then Cap(wait[y] + 1) else wait[y]
    decreases |q|
  {
    if q != [] {
      var w := if q[0] == cur then wait else wait[q[0] := Cap(wait[q[0]] + 1)];
      assert q[0] !in q[1..];
      assert y in q <==> y == q[0] || y in q[1..];
      AgeQueueAt(w, q[1..], cur, y);
    }
  }

  lemma {:induction false} AgeBlockedAt(wait: seq<int>, p: seq<Proc>, i: nat, y: int)
    requires i <= |p| == |wait| && 0 <= y < |wait|
    ensures AgeBlocked(wait, p, i)[y] == if i <= y && AgesBlocked(p[y]) then Cap(wait[y] + 1) else wait[y]
    decreases |p| - i
  {
    if i < |p| {
      AgeBlockedAt(if AgesBlocked(p[i]) then wait[i := Cap(wait[i] + 1)] else wait, p, i + 1, y);
    }
  }

  /** One aging update raises any counter by at most 1, and that of a waiting process by exactly 1 until the limit. */
  lemma AgeRaisesByOne(s: State, y: int)
    requires Inv(s) && Members(s) && s.Slot(y)
    ensures Age(s).wait[y] <= s.wait[y] + 1
    ensures y in s.q[G2_Q] && y != s.cur && s.wait[y] < MAX_WAIT_TICKS ==> Age(s).wait[y] == s.wait[y] + 1
    ensures y !in s.q[G2_Q] && !AgesBlocked(s.p[y]) ==> Age(s).wait[y] == s.wait[y]
  {
    MembersTables(s);
    AgeQueueAt(s.wait, s.q[G2_Q], s.cur, y);
    AgeBlockedAt(AgeQueue(s.wait, s.q[G2_Q], s.cur), s.p, 0, y);
    assert y in s.q[G2_Q] <==> Belongs(s.p, G2_Q, y);
  }

  /** x waits in group 2, its counter positive and not saturated. */
  ghost predicate AwaitsPick(s: State, x: int) {
    s.Wf() && s.Slot(x) && x in s.q[G2_Q] && x != s.cur && 1 <= s.wait[x] < MAX_WAIT_TICKS
  }

  lemma QuantumGentle(s: State, x: int)
    requires Inv(s) && Members(s) && s.Slot(x)
    ensures Tables(s) && Tables(TickQuantum(s)) && s.picks == TickQuantum(s).picks
    ensures TickQuantum(s).p == s.p && TickQuantum(s).wait == s.wait && TickQuantum(s).q[G2_Q] == s.q[G2_Q]
  {
    MembersTables(s);
    MembersTables(TickQuantum(s));
    if s.p[s.cur].Queue() == G1_Q {
      assert s.q[G1_Q] != [];
      assert |s.q[G1_Q]| >= 1 && |Rotate(s.q[G1_Q])| >= 1;
    }
  }

  /** What a step does to the rivals of x: those it picks are rivals, picked once and then none any more. */
  ghost predicate Spends(s: State, t: State, x: int) {
    && Tables(s) && Tables(t) && |t.p| == |s.p| && 0 <= x < |s.p| && s.picks <= t.picks
    && SpendsRivals(s, t, x)
  }

  lemma TickSpends(s: State, x: int)
    requires Inv(s) && Members(s) && AwaitsPick(s, x) && AwaitsPick(Tick(s), x)
    ensures Spends(s, Tick(s), x)
  {
    QuantumGentle(s, x);
    TickQuantumKeeps(s);
    var q := TickQuantum(s);
    var t := Tick(s);
    MembersTables(t);
    assert t.picks == s.picks && NewPicks(s, t) == [];
    if q.aging + 1 >= AGING_TICK {
      TickCurStays(s, x);
      forall y | y in Rivals(t.p, t.wait, x) ensures y in Rivals(s.p, s.wait, x) {
        AgeRaisesByOne(q, y);
        AgeRaisesByOne(q, x);
      }
    }
  }

  /** The round-robin half of a tick does not make x run while x is waiting afterwards. */
  lemma TickCurStays(s: State, x: int)
    requires Inv(s) && Members(s) && AwaitsPick(Tick(s), x)
    ensures TickQuantum(s).cur != x
  {
  }

  lemma SpendsComposes(s: State, t: State, u: State, x: int)
    requires Spends(s, t, x) && Spends(t, u, x)
    ensures Spends(s, u, x)
  {
    NewPicksCompose(s, t, u);
    var a, b := NewPicks(s, t), NewPicks(t, u);
    assert forall y :: y in a + b <==> y in a || y in b;
    forall y | y in b ensures y !in a { assert y in Rivals(t.p, t.wait, x); }
    NoDupConcat(a, b);
  }

  ghost predicate AwaitsThroughout(run: seq<State>, x: int) {
    forall j :: 0 <= j < |run| ==> AwaitsPick(run[j], x)
  }

  lemma SpendStep(s: State, st: Step, x: int)
    requires Inv(s) && Enabled(s, st) && AwaitsPick(s, x) && AwaitsPick(Apply(s, st), x)
    ensures Spends(s, Apply(s, st), x)
  {
    ExactMembers(s);
    if st == TickStep {
      TickSpends(s, x);
    } else {
      StepGentle(s, st, x);
      NotPicked(s, Apply(s, st), x);
    }
  }

  /** A picked process has counter 0, so one whose counter is still positive was not picked. */
  lemma NotPicked(s: State, t: State, x: int)
    requires Gentle(s, t, x) && AwaitsPick(s, x) && AwaitsPick(t, x)
    ensures Spends(s, t, x)
  {
  }

  /**
   Aging: while a group-2 process waits with a positive, unsaturated counter, the processes picked from group 2
   are rivals whose counter had reached its own at the start, and no rival is picked twice.
   */
  lemma {:induction false} BypassBound(run: seq<State>, steps: seq<Step>, x: int, n: nat)
    requires Run(run, steps) && Inv(run[0]) && AwaitsThroughout(run, x) && n <= |steps|
    ensures Spends(run[0], run[n], x)
    ensures |run[n].picks| - |run[0].picks| <= |Rivals(run[0].p, run[0].wait, x)|
  {
    hide Inv, Run, Apply, AwaitsPick, Spends;
    RunLength(run, steps);
    if n == 0 {
      assert AwaitsPick(run[0], x);
      SpendsNothing(run[0], x);
    } else {
      RunStep(run, steps, n - 1);
      BypassBound(run, steps, x, n - 1);
      assert AwaitsPick(run[n - 1], x) && AwaitsPick(run[n], x);
      FollowsSpends(run[n - 1], steps[n - 1], run[n], x);
      SpendsComposes(run[0], run[n - 1], run[n], x);
    }
    SpendsCount(run[0], run[n], x);
  }

  lemma SpendsNothing(s: State, x: int)
    requires Inv(s) && AwaitsPick(s, x)
    ensures Spends(s, s, x)
  {
    ExactMembers(s);
    MembersTables(s);
    assert NewPicks(s, s) == [];
  }

  lemma FollowsSpends(s: State, st: Step, t: State, x: int)
    requires Follows(s, st, t) && AwaitsPick(s, x) && AwaitsPick(t, x)
    ensures Spends(s, t, x)
  {
    SpendStep(s, st, x);
  }

  lemma SpendsCount(s: State, t: State, x: int)
    requires Spends(s, t, x)
    ensures |t.picks| - |s.picks| <= |Rivals(s.p, s.wait, x)|
  {
    DistinctWithin(NewPicks(s, t), Rivals(s.p, s.wait, x));
  }

  lemma {:induction false} DistinctWithin(q: seq<int>, a: set<int>)
    requires NoDup(q) && forall y :: y in q ==> y in a
    ensures |q| <= |a|
  {
    if q != [] {
      assert q[0] !in q[1..];
      assert forall y :: y in q[1..] ==> y in q;
      DistinctWithin(q[1..], a - {q[0]});
    }
  }
}
