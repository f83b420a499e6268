/**
 What allocation and swapping do, in terms of holes and processes: which hole an allocation takes, who is swapped out
 and where to, and who is back in core when the swap-in queue has been walked.
 */
module SwapEffects {
  import opened HoleList
  import opened Fits
  import opened Memory
  import opened Ledger

  // ---------------------------------------------------------------- alloc_mem

  predicate FitsInCore(m: Mem, n: nat, j: int) {
    0 <= j < |m.holes| && m.holes[j].base < m.swapBase && m.holes[j].len >= n
  }

  /** With first fit and a core hole that is long enough, the front of the lowest such hole is taken and nobody is
      swapped out. */
  lemma FirstFitEffect(m: Mem, n: nat, j: int)
    requires m.Wf() && Canonical(m.holes) && FitsInCore(m, n, j)
    ensures var (out, r) := Alloc(m, false, n);
      && out.Block? && out.base <= m.holes[j].base && (exists i :: FitsInCore(m, n, i) && m.holes[i].base == out.base)
      && r.procs == m.procs && r.outswap == m.outswap && r.swapBase == m.swapBase
      && r.blocks == m.blocks + (if n > 0 then {Hole(out.base, n)} else {})
      && Clicks(r.holes) == Clicks(m.holes) - Span(out.base, n)
  {
    var i := FirstFit(m.holes, m.swapBase, n, 0);
    if i < 0 { FirstFitComplete(m.holes, m.swapBase, n, 0); }
    assert FitsInCore(m, n, i);
    if i < j { Ordered(m.holes, i, j); }
    TakeKeeps(m.holes, i, n);
  }

  // ---------------------------------------------------------------- swap_out

  predicate SwapHole(m: Mem, n: nat, j: int) {
    0 <= j < |m.holes| && m.holes[j].base >= m.swapBase && m.holes[j].len >= n
  }

  /** Process x waits, is not traced or waiting for a reply, is in core, and there is room for it on swap. */
  ghost predicate Swappable(m: Mem, x: int) {
    && m.UserSlot(x) && m.procs[x].waits && !m.procs[x].avoid && !m.procs[x].onSwap
    && exists j :: SwapHole(m, m.procs[x].size, j)
  }

  lemma SwappableIff(m: Mem, x: int)
    requires m.UserSlot(x)
    ensures Swappable(m, x) <==> CanSwap(m, x)
  {
    var j := SwapFit(m.holes, m.swapBase, m.procs[x].size, 0);
    if j >= 0 { assert SwapHole(m, m.procs[x].size, j); }
  }

  /** How far behind slot i slot x comes, going round the user slots: 1 for the next, their number for i itself. */
  function Behind(m: Mem, i: int, x: int): int {
    if x > i then x - i else |m.procs| - m.lowUser - (i - x)
  }

  lemma {:induction false} VictimFirst(m: Mem, i: int)
    requires m.Wf() && m.UserSlot(i)
    ensures var x := Victim(m, i);
      forall y :: m.UserSlot(y) && Ahead(m, i, y) && (x >= 0 ==> Behind(m, i, y) < Behind(m, i, x)) ==> !CanSwap(m, y)
    ensures Victim(m, i) >= 0 ==> Ahead(m, i, Victim(m, i))
    decreases Distance(m, i)
  {
    var n := Next(m, i);
    if !CanSwap(m, n) && n != m.outswap {
      VictimFirst(m, n);
      var x := Victim(m, n);
      forall y | m.UserSlot(y) && Ahead(m, i, y) && (x >= 0 ==> Behind(m, i, y) < Behind(m, i, x))
        ensures !CanSwap(m, y)
      {
        if y != n { assert Ahead(m, n, y); }
      }
    }
  }

  /** swap_out moves the first process after the last one moved that can be swapped, to the lowest swap hole that is
      long enough; it fails, without a change, exactly when there is none. */
  lemma SwapOutEffect(m: Mem)
    requires m.Wf() && Canonical(m.holes)
    ensures var (done, r) := SwapOut(m); var x := r.outswap;
      && (!done <==> forall y :: !Swappable(m, y)) && (!done ==> r == m)
      && (done ==>
            && Swappable(m, x) && (forall y :: Swappable(m, y) ==> Behind(m, m.outswap, x) <= Behind(m, m.outswap, y))
            && r.procs == m.procs[x := m.procs[x].(phys := r.procs[x].phys, onSwap := true)] && r.swapBase == m.swapBase
            && LowestSwapHole(m, m.procs[x].size, r.procs[x].phys))
  {
    var x := Victim(m, m.outswap);
    VictimFirst(m, m.outswap);
    forall y | m.UserSlot(y) ensures Swappable(m, y) <==> CanSwap(m, y) { SwappableIff(m, y); }
    assert forall y :: m.UserSlot(y) ==> Ahead(m, m.outswap, y);
    if x >= 0 { SwapFitLowest(m, m.procs[x].size); }
  }

  /** b is the base of a swap hole of at least n clicks, and no other such hole starts below it. */
  ghost predicate LowestSwapHole(m: Mem, n: nat, b: int) {
    (exists j :: SwapHole(m, n, j) && m.holes[j].base == b) && forall j :: SwapHole(m, n, j) ==> b <= m.holes[j].base
  }

  lemma SwapFitLowest(m: Mem, n: nat)
    requires Canonical(m.holes) && SwapFit(m.holes, m.swapBase, n, 0) >= 0
    ensures LowestSwapHole(m, n, m.holes[SwapFit(m.holes, m.swapBase, n, 0)].base)
  {
    var i := SwapFit(m.holes, m.swapBase, n, 0);
    assert SwapHole(m, n, i);
    forall j | SwapHole(m, n, j) ensures m.holes[i].base <= m.holes[j].base {
      if i < j { Ordered(m.holes, i, j); }
    }
  }

  // ---------------------------------------------------------------- swap_in

  /** A process of the queue that finds memory is in core, in the block allocated, and waits no longer; one that does
      not stays as it is and remains queued. */
  lemma SwapInOneEffect(m: Mem, memory: set<int>, worst: bool, x: int)
    requires MemInv(m, memory) && m.UserSlot(x) && m.procs[x].queued
    ensures var n := m.procs[x].size; var (out, a), (done, r) := Alloc(m, worst, n), SwapInOne(m, worst, x);
      && done == out && a.UserSlot(x)
      && if out.NoMem? then r == a
         else
           && r.procs == a.procs[x := m.procs[x].(phys := out.base, onSwap := false, queued := false)]
           && r.blocks == a.blocks - (if n > 0 then {Hole(a.procs[x].phys, n)} else {})
           && Clicks(r.holes) == Clicks(a.holes) + Span(a.procs[x].phys, n)
  {
    var n := m.procs[x].size;
    var (out, a) := Alloc(m, worst, n);
    AllocKeeps(m, memory, worst, n);
    AllocFrame(m, worst, n);
    assert Placed(m.procs[x], a.procs[x]);
    if out.Block? {
      if n > 0 { assert Owner(a, x); }
      FreePartition(a.holes, a.blocks, memory, a.procs[x].phys, n, a.blocks - Entry(a.procs[x].phys, n));
    }
  }

  /** x is queued before and after, or is taken out of the queue. */
  lemma {:induction false} QueuedStays(m: Mem, worst: bool, q: seq<int>, x: int)
    requires m.Wf() && Slots(m, q) && m.UserSlot(x)
    ensures var r := SwapIn(m, worst, q); r.0.UserSlot(x) && (r.0.procs[x].queued ==> m.procs[x].queued)
    ensures x !in q ==> SwapIn(m, worst, q).0.procs[x].queued == m.procs[x].queued
    decreases |q|
  {
    if q != [] {
      assert m.UserSlot(q[0]);
      if m.procs[q[0]].queued {
        OneQueued(m, worst, q[0], x);
        QueuedStays(SwapInOne(m, worst, q[0]).1, worst, q[1..], x);
      } else {
        QueuedStays(m, worst, q[1..], x);
      }
    }
  }

  lemma OneQueued(m: Mem, worst: bool, y: int, x: int)
    requires m.Wf() && m.UserSlot(y) && m.UserSlot(x)
    ensures var (out, r) := SwapInOne(m, worst, y);
      r.UserSlot(x) && r.procs[x].queued == (m.procs[x].queued && (x != y || out.NoMem?))
  {
    AllocFrame(m, worst, m.procs[y].size);
    assert Placed(m.procs[x], Alloc(m, worst, m.procs[y].size).1.procs[x]);
    assert Placed(m.procs[y], Alloc(m, worst, m.procs[y].size).1.procs[y]);
  }

  /** r is what is left of q when some entries have been taken out. */
  predicate Subsequence(r: seq<int>, q: seq<int>) {
    r == [] || (q != [] && (if r[0] == q[0] then Subsequence(r[1..], q[1..]) else Subsequence(r, q[1..])))
  }

  /** After the walk the queue holds, in their old order, exactly those of its processes that are still waiting. */
  lemma {:induction false} SwapInQueue(m: Mem, worst: bool, q: seq<int>)
    requires m.Wf() && Slots(m, q) && forall i, j :: 0 <= i < j < |q| ==> q[i] != q[j]
    ensures var (r, left) := SwapIn(m, worst, q);
      && Subsequence(left, q)
      && forall x :: x in q ==> m.UserSlot(x) && r.UserSlot(x) && (x in left <==> r.procs[x].queued)
    decreases |q|
  {
    if q != [] {
      var x := q[0];
      assert m.UserSlot(x) && x !in q[1..];
      var t := if m.procs[x].queued then SwapInOne(m, worst, x).1 else m;
      if m.procs[x].queued { OneQueued(m, worst, x, x); }
      hide SwapInOne;
      SwapInQueue(t, worst, q[1..]);
      QueuedStays(t, worst, q[1..], x);
      WalkHead(m, worst, q, t);
      var left := SwapIn(t, worst, q[1..]).1;
      SubsequenceMembers(left, q[1..]);
      assert forall y :: y in q <==> y == x || y in q[1..];
      assert ([x] + left)[1..] == left && [] + left == left;
      assert left != [] ==> left[0] in left;
    }
  }

  lemma WalkHead(m: Mem, worst: bool, q: seq<int>, t: Mem)
    requires m.Wf() && Slots(m, q) && q != [] && m.UserSlot(q[0])
    requires t == if m.procs[q[0]].queued then SwapInOne(m, worst, q[0]).1 else m
    ensures t.Wf() && Slots(t, q[1..]) && SwapIn(m, worst, q).0 == SwapIn(t, worst, q[1..]).0
    ensures SwapIn(m, worst, q).1 ==
      (if m.procs[q[0]].queued && SwapInOne(m, worst, q[0]).0.NoMem? then [q[0]] else []) + SwapIn(t, worst, q[1..]).1
  {
    hide SwapInOne;
  }

  lemma {:induction false} SubsequenceMembers(r: seq<int>, q: seq<int>)
    requires Subsequence(r, q)
    ensures forall y :: y in r ==> y in q
  {
    if r != [] {
      assert forall y :: y in q <==> y == q[0] || y in q[1..];
      assert forall y :: y in r <==> y == r[0] || y in r[1..];
      if r[0] == q[0] { SubsequenceMembers(r[1..], q[1..]); } else { SubsequenceMembers(r, q[1..]); }
    }
  }
}
