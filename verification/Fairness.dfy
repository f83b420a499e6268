/**
 How long a ready process can be passed over: the round-robin bound of group 1 and the bypass bound of
 group 2. Both follow from one relation between kernel states that composes along a step.
 */
module Fairness {
  import opened Lists
  import opened KernelState
  import opened ReadyQueues

  /** Ticks that the processes ahead of x in group 1 may still take before their quanta end. */
  function Ahead(q: seq<int>, rr: seq<int>, x: int): int
    requires InTable(q, |rr|)
  {
    if q == [] || q[0] == x then 0
    else RR_QUANTUM - rr[q[0]] + Ahead(q[1..], rr, x)
  }

  /** The other group-2 processes whose waiting counter has reached that of x. */
  function Rivals(p: seq<Proc>, wait: seq<int>, x: int): set<int>
    requires 0 <= x < |p| == |wait|
  {
    set y | 0 <= y < |p| && y != x && p[y].priority == User && p[y].group == 2 && wait[y] >= wait[x]
  }

  function NewPicks(s: State, t: State): seq<int>
    requires |s.picks| <= |t.picks|
  {
    t.picks[|s.picks|..]
  }

  ghost predicate Tables(s: State) {
    s.Wf() && InTable(s.q[G1_Q], |s.p|) && InTable(s.q[G2_Q], |s.p|)
  }

  /** Nobody gets ahead of x in group 1 while x stays queued there. */
  ghost predicate KeepsTurn(s: State, t: State, x: int)
    requires Tables(s) && Tables(t) && |t.p| == |s.p|
  {
    x in t.q[G1_Q] ==> x in s.q[G1_Q] && Ahead(t.q[G1_Q], t.rr, x) <= Ahead(s.q[G1_Q], s.rr, x)
  }

  /** x is still waiting in group 2 at t and has not been picked since s. */
  predicate StillWaits(s: State, t: State, x: int)
    requires s.picks <= t.picks && |t.q| == QUEUES
  {
    x in t.q[G2_Q] && x !in NewPicks(s, t)
  }

  /** While x waits in group 2, each pick made is of a rival, which thereby stops being one; no rival is added. */
  ghost predicate SpendsRivals(s: State, t: State, x: int)
    requires Tables(s) && Tables(t) && |t.p| == |s.p| && 0 <= x < |s.p| && s.picks <= t.picks
  {
    && Rivals(t.p, t.wait, x) <= Rivals(s.p, s.wait, x)
    && NoDup(NewPicks(s, t))
    && forall y :: y in NewPicks(s, t) ==> y in Rivals(s.p, s.wait, x) && y !in Rivals(t.p, t.wait, x)
  }

  /** The relation that every part of a step satisfies for a process x that the step does not make ready. */
  ghost predicate Gentle(s: State, t: State, x: int) {
    && Tables(s) && Tables(t) && |t.p| == |s.p| && 0 <= x < |s.p| && s.picks <= t.picks
    && KeepsTurn(s, t, x)
    && (t.wait[x] == s.wait[x] || t.wait[x] == 0) && (x in NewPicks(s, t) ==> t.wait[x] == 0)
    && (StillWaits(s, t, x) ==> x in s.q[G2_Q] && t.wait[x] == s.wait[x])
    && (StillWaits(s, t, x) && s.wait[x] >= 1 ==> SpendsRivals(s, t, x))
  }

  lemma NewPicksCompose(s: State, t: State, u: State)
    requires s.picks <= t.picks <= u.picks
    ensures s.picks <= u.picks && NewPicks(s, u) == NewPicks(s, t) + NewPicks(t, u)
  {
    assert t.picks == u.picks[..|t.picks|];
    assert u.picks[|s.picks|..] == t.picks[|s.picks|..] + u.picks[|t.picks|..];
  }

  lemma GentleComposes(s: State, t: State, u: State, x: int)
    requires Gentle(s, t, x) && Gentle(t, u, x)
    ensures Gentle(s, u, x)
  {
    NewPicksCompose(s, t, u);
    var a, b := NewPicks(s, t), NewPicks(t, u);
    assert forall y :: y in a + b <==> y in a || y in b;
    if StillWaits(s, u, x) && s.wait[x] >= 1 {
      assert StillWaits(t, u, x) && StillWaits(s, t, x);
      forall y | y in b ensures y !in a { assert y in Rivals(t.p, t.wait, x); }
      NoDupConcat(a, b);
    }
  }

  lemma GentleReflexive(s: State, x: int)
    requires Tables(s) && s.Slot(x)
    ensures Gentle(s, s, x)
  {
    assert NewPicks(s, s) == [];
  }

  // ---------------------------------------------------------------- the parts of a step

  lemma {:induction false} AheadAfterRemove(q: seq<int>, rr: seq<int>, x: int, i: int)
    requires InTable(q, |rr|) && i != x && forall j :: 0 <= j < |rr| ==> rr[j] < RR_QUANTUM
    ensures InTable(Remove(q, i), |rr|)
    ensures Ahead(Remove(q, i), rr, x) <= Ahead(q, rr, x)
  {
    var r := Remove(q, i);
    forall j | 0 <= j < |r| ensures 0 <= r[j] < |rr| { assert r[j] in q; }
    if q != [] && q[0] != i && q[0] != x {
      AheadAfterRemove(q[1..], rr, x, i);
      assert r[1..] == Remove(q[1..], i);
    }
  }

  lemma {:induction false} AheadAfterAppend(q: seq<int>, rr: seq<int>, x: int, i: int)
    requires InTable(q, |rr|) && 0 <= i < |rr| && x in q
    ensures Ahead(q + [i], rr, x) == Ahead(q, rr, x)
  {
    if q[0] != x {
      assert (q + [i])[1..] == q[1..] + [i];
      AheadAfterAppend(q[1..], rr, x, i);
    }
  }

  lemma MembersTables(s: State)
    requires Members(s)
    ensures Tables(s)
  {
    forall k, j | 0 <= k < QUEUES && 0 <= j < |s.q[k]| ensures 0 <= s.q[k][j] < |s.p| {
      assert Member(s.p, k, s.q[k][j]);
    }
  }

  lemma PickGentle(s: State, x: int)
    requires Members(s) && s.Slot(x)
    ensures Gentle(s, Pick(s), x)
  {
    MembersTables(s);
    var t := Pick(s);
    if t.picks == s.picks {
      assert NewPicks(s, t) == [];
    } else {
      var y := t.cur;
      assert NewPicks(s, t) == [y];
      assert exists j :: 0 <= j < |s.q[G2_Q]| && s.q[G2_Q][j] == y;
      assert Member(s.p, G2_Q, y);
      if s.wait[x] >= 1 && x in s.q[G2_Q] && y != x {
        var j :| 0 <= j < |s.q[G2_Q]| && s.q[G2_Q][j] == x;
        assert y in Rivals(s.p, s.wait, x);
        assert Rivals(t.p, t.wait, x) <= Rivals(s.p, s.wait, x);
      }
    }
  }

  lemma UnreadyGentle(s: State, i: int, x: int)
    requires Members(s) && s.Slot(i) && s.Slot(x) && (forall k :: 0 <= k < QUEUES ==> NoDup(s.q[k]))
    requires forall j :: 0 <= j < |s.rr| ==> s.rr[j] < RR_QUANTUM
    ensures Gentle(s, Unready(s, i), x)
  {
    var k := s.p[i].Queue();
    var t := s.(q := s.q[k := Remove(s.q[k], i)]);
    MembersTables(s);
    RemoveMembers(s.q[k], i);
    assert Members(t);
    MembersTables(t);
    if i != x { AheadAfterRemove(s.q[G1_Q], s.rr, x, i); }
    assert NewPicks(s, t) == [];
    assert Gentle(s, t, x);
    if Repicks(s, k, i) {
      PickGentle(t, x);
      GentleComposes(s, t, Pick(t), x);
    }
  }

  /** Changing table entries, without adding to group 2 a process whose counter is positive. */
  ghost predicate SameOrFresh(s: State, t: State) {
    && |t.p| == |s.p| == |s.wait| == |t.wait|
    && forall y :: 0 <= y < |s.p| && t.p[y].priority == User && t.p[y].group == 2 ==>
      t.wait[y] == 0 || (t.wait[y] == s.wait[y] && s.p[y].priority == User && s.p[y].group == 2)
  }

  lemma UpdateGentle(s: State, t: State, x: int)
    requires Tables(s) && t.Wf() && |t.p| == |s.p| && s.Slot(x) && t.q == s.q && t.picks == s.picks
    requires SameOrFresh(s, t) && t.wait[x] == s.wait[x]
    requires forall j :: 0 <= j < |s.q[G1_Q]| ==> t.rr[s.q[G1_Q][j]] == s.rr[s.q[G1_Q][j]]
    ensures Gentle(s, t, x)
  {
    assert NewPicks(s, t) == [];
    AheadSame(s.q[G1_Q], s.rr, t.rr, x);
  }

  /** One entry changes its flags; queues, counters and picks stay. */
  lemma EntryGentle(s: State, t: State, i: int, e: Proc, x: int)
    requires Tables(s) && t.Wf() && s.Slot(i) && s.Slot(x) && SameClass(e, s.p[i])
    requires t.p == s.p[i := e] && t.q == s.q && t.picks == s.picks && t.wait == s.wait && t.rr == s.rr
    ensures Gentle(s, t, x)
  {
    UpdateGentle(s, t, x);
  }

  lemma {:induction false} AheadSame(q: seq<int>, rr: seq<int>, r2: seq<int>, x: int)
    requires InTable(q, |rr|) && |r2| == |rr| && forall j :: 0 <= j < |q| ==> r2[q[j]] == rr[q[j]]
    ensures Ahead(q, r2, x) == Ahead(q, rr, x)
  {
    if q != [] && q[0] != x { AheadSame(q[1..], rr, r2, x); }
  }

  lemma ReadyGentle(s: State, i: int, x: int)
    requires Members(s) && s.Slot(i) && s.Slot(x) && i != x && s.p[i].Live()
    ensures Gentle(s, Ready(s, i), x)
  {
    MembersTables(s);
    ReadyKeepsMembers(s, i);
    var t := Ready(s, i);
    MembersTables(t);
    assert NewPicks(s, t) == [];
    EnqueueMembers(s, s.p[i].Queue(), i);
    if s.p[i].Queue() == G1_Q && x in s.q[G1_Q] {
      AheadAfterAppend(s.q[G1_Q], s.rr, x, i);
    }
  }

  ghost predicate QueuesOk(s: State) {
    && Members(s) && (forall k :: 0 <= k < QUEUES ==> NoDup(s.q[k]))
    && forall j :: 0 <= j < |s.rr| ==> s.rr[j] < RR_QUANTUM
  }

  lemma BlockGentle(s: State, i: int, e: Proc, x: int)
    requires QueuesOk(s) && s.Slot(i) && s.Slot(x) && (SameClass(e, s.p[i]) || e.priority == Unused)
    ensures Gentle(s, Block(s, i, e), x)
  {
    MembersTables(s);
    GentleReflexive(s, x);
    if s.p[i].Runnable() { UnreadyGentle(s, i, x); }
    var t := if s.p[i].Runnable() then Unready(s, i) else s;
    UpdateGentle(t, Block(s, i, e), x);
    GentleComposes(s, t, Block(s, i, e), x);
  }

  lemma UnblockGentle(s: State, i: int, e: Proc, x: int)
    requires Members(s) && s.Slot(i) && s.Slot(x) && SameClass(e, s.p[i]) && e.Live() && i != x
    ensures Gentle(s, Unblock(s, i, e), x)
  {
    MembersTables(s);
    UpdateKeepsMembers(s, i, e);
    var t := s.(p := s.p[i := e]);
    UpdateGentle(s, t, x);
    if e.Runnable() {
      ReadyGentle(t, i, x);
      GentleComposes(s, t, Ready(t, i), x);
    }
  }
}
