/**
 What the allocator keeps over whole runs: free clicks and outstanding blocks partition the memory, core and swap
 stay apart, and the hole table cannot overflow.
 */
module Ledger {
  import opened HoleList
  import opened Fits
  import opened Memory

  predicate Covers(b: Hole, c: int) { b.base <= c < b.End() }

  /** The click belongs to an outstanding block. */
  ghost predicate Taken(blocks: set<Hole>, c: int) {
    exists b :: b in blocks && Covers(b, c)
  }

  ghost predicate Apart(blocks: set<Hole>) {
    && (forall b :: b in blocks ==> b.len > 0)
    && (forall b, c :: b in blocks && c in blocks && b != c ==> b.End() <= c.base || c.End() <= b.base)
  }

  /** Free clicks and outstanding blocks partition the memory, and the hole list is canonical. */
  ghost predicate Partition(holes: seq<Hole>, blocks: set<Hole>, memory: set<int>) {
    && Canonical(holes)
    && Apart(blocks)
    && (forall c :: c in memory <==> (c in Clicks(holes) || Taken(blocks, c)))
    && (forall c :: c in Clicks(holes) ==> !Taken(blocks, c))
  }

  lemma TakePartition(holes: seq<Hole>, blocks: set<Hole>, memory: set<int>, i: nat, n: nat, g: set<Hole>)
    requires Partition(holes, blocks, memory) && i < |holes| && n <= holes[i].len
    requires g == blocks + Entry(holes[i].base, n)
    ensures Partition(Take(holes, i, n), g, memory)
    ensures n > 0 ==> Hole(holes[i].base, n) !in blocks
  {
    hide Clicks, Canonical, Take;
    TakeKeeps(holes, i, n);
    if n > 0 {
      var b := Hole(holes[i].base, n);
      assert forall c :: Covers(b, c) ==> c in Span(b.base, n);
      forall c | c in blocks ensures b.End() <= c.base || c.End() <= b.base {
        var x := if c.base < b.base then b.base else c.base;
        assert Covers(c, x) ==> Taken(blocks, x);
        assert Covers(b, x) ==> x in Clicks(holes);
      }
      assert Covers(b, b.base) && b.base in Clicks(holes);
      forall c ensures Taken(g, c) <==> (Taken(blocks, c) || Covers(b, c)) {
        TakenMore(blocks, b, g, c);
      }
    } else {
      assert g == blocks;
    }
  }

  lemma TakenMore(blocks: set<Hole>, b: Hole, g: set<Hole>, c: int)
    requires g == blocks + {b}
    ensures Taken(g, c) <==> (Taken(blocks, c) || Covers(b, c))
  {
    if Covers(b, c) { assert b in g; }
  }

  lemma TakenLess(blocks: set<Hole>, b: Hole, g: set<Hole>, c: int)
    requires Apart(blocks) && b in blocks && g == blocks - {b}
    ensures Taken(g, c) <==> (Taken(blocks, c) && !Covers(b, c))
  {
  }

  lemma FreePartition(holes: seq<Hole>, blocks: set<Hole>, memory: set<int>, base: int, n: nat, g: set<Hole>)
    requires Partition(holes, blocks, memory) && Entry(base, n) <= blocks && g == blocks - Entry(base, n)
    ensures Partition(Free(holes, base, n), g, memory)
    ensures Clicks(Free(holes, base, n)) == Clicks(holes) + Span(base, n)
    ensures Span(base, n) !! Clicks(holes)
  {
    if n > 0 {
      var b := Hole(base, n);
      assert b in blocks;
      forall c | c in Span(base, n) ensures c !in Clicks(holes) {
        assert Covers(b, c);
      }
      FreeKeeps(holes, base, n);
      forall c ensures Taken(g, c) <==> (Taken(blocks, c) && !Covers(b, c)) {
        TakenLess(blocks, b, g, c);
      }
      forall c ensures c in Span(base, n) <==> Covers(b, c) {}
    } else {
      assert g == blocks;
    }
  }

  // ---------------------------------------------------------------- owners of blocks

  predicate Owner(m: Mem, i: int) {
    m.UserSlot(i) && m.procs[i].Owns()
  }

  /** Every process with a segment holds a block of its own; only processes with a segment wait. */
  ghost predicate Owned(m: Mem) {
    && (forall i :: Owner(m, i) ==> Hole(m.procs[i].phys, m.procs[i].size) in m.blocks)
    && (forall i, j :: Owner(m, i) && Owner(m, j) && m.procs[i].phys == m.procs[j].phys ==> i == j)
    && (forall i :: m.UserSlot(i) && (m.procs[i].Eligible() || m.procs[i].queued) ==> m.procs[i].live)
  }

  ghost predicate MemInv(m: Mem, memory: set<int>) {
    m.Wf() && Partition(m.holes, m.blocks, memory) && Owned(m)
  }

  /** Two blocks of the ledger with the same base are the same block. */
  lemma SameBase(blocks: set<Hole>, b: Hole, c: Hole)
    requires Apart(blocks) && b in blocks && c in blocks && b.base == c.base
    ensures b == c
  {
  }

  lemma TakeBlockKeeps(m: Mem, memory: set<int>, i: nat, n: nat)
    requires MemInv(m, memory) && i < |m.holes| && n <= m.holes[i].len
    ensures MemInv(TakeBlock(m, i, n).1, memory)
  {
    var r := TakeBlock(m, i, n).1;
    TakePartition(m.holes, m.blocks, memory, i, n, r.blocks);
    assert forall k :: Owner(r, k) <==> Owner(m, k);
  }

  /** Taking n clicks of hole j and freeing another block of n clicks. */
  lemma MovePartition(holes: seq<Hole>, blocks: set<Hole>, memory: set<int>, j: nat, n: nat, base: int, g: set<Hole>)
    requires Partition(holes, blocks, memory) && j < |holes| && n <= holes[j].len && Entry(base, n) <= blocks
    requires g == blocks - Entry(base, n) + Entry(holes[j].base, n)
    ensures Partition(Free(Take(holes, j, n), base, n), g, memory)
    ensures n > 0 ==> Hole(holes[j].base, n) !in blocks
  {
    var f := blocks + Entry(holes[j].base, n);
    TakePartition(holes, blocks, memory, j, n, f);
    assert g == f - Entry(base, n);
    FreePartition(Take(holes, j, n), f, memory, base, n, g);
  }

  lemma MoveClicks(holes: seq<Hole>, blocks: set<Hole>, memory: set<int>, j: nat, n: nat, base: int)
    requires Partition(holes, blocks, memory) && j < |holes| && n <= holes[j].len && Entry(base, n) <= blocks
    ensures Clicks(Free(Take(holes, j, n), base, n)) == Clicks(holes) - Span(holes[j].base, n) + Span(base, n)
    ensures Span(base, n) !! Clicks(holes) && Span(holes[j].base, n) <= Clicks(holes)
  {
    TakeKeeps(holes, j, n);
    FreePartition(holes, blocks, memory, base, n, blocks - Entry(base, n));
    FreeKeeps(Take(holes, j, n), base, n);
  }

  /** What SwapTo does to the hole list: a swap hole gives size clicks, the old block becomes free. */
  lemma SwapToPartition(m: Mem, memory: set<int>, x: int, j: nat)
    requires MemInv(m, memory) && m.UserSlot(x) && m.procs[x].Eligible()
    requires j < |m.holes| && m.procs[x].size <= m.holes[j].len
    ensures Partition(SwapTo(m, x, j).holes, SwapTo(m, x, j).blocks, memory)
    ensures m.procs[x].size > 0 ==> Hole(m.holes[j].base, m.procs[x].size) !in m.blocks
    ensures Entry(m.procs[x].phys, m.procs[x].size) <= m.blocks
  {
    var e := m.procs[x];
    if e.size > 0 { assert Owner(m, x); }
    MovePartition(m.holes, m.blocks, memory, j, e.size, e.phys, SwapTo(m, x, j).blocks);
  }

  lemma SwapToOwned(m: Mem, memory: set<int>, x: int, j: nat, r: Mem)
    requires MemInv(m, memory) && m.UserSlot(x) && m.procs[x].Eligible()
    requires j < |m.holes| && m.procs[x].size <= m.holes[j].len && r == SwapTo(m, x, j)
    requires m.procs[x].size > 0 ==> Hole(m.holes[j].base, m.procs[x].size) !in m.blocks
    requires Partition(r.holes, r.blocks, memory)
    ensures Owned(r)
  {
    hide Clicks, Canonical, Take, Free;
    var e := m.procs[x];
    forall i | Owner(r, i) ensures Hole(r.procs[i].phys, r.procs[i].size) in r.blocks {
      if i != x {
        assert Owner(m, i);
        if e.size > 0 { assert Owner(m, x); }
      }
    }
    forall i, k | Owner(r, i) && Owner(r, k) && r.procs[i].phys == r.procs[k].phys ensures i == k {
      if i != x { assert Owner(m, i); }
      if k != x { assert Owner(m, k); }
      SameBase(r.blocks, Hole(r.procs[i].phys, r.procs[i].size), Hole(r.procs[k].phys, r.procs[k].size));
    }
  }

  /** swap_out keeps the invariant. */
  lemma SwapOutKeeps(m: Mem, memory: set<int>)
    requires MemInv(m, memory)
    ensures MemInv(SwapOut(m).1, memory)
  {
    var x := Victim(m, m.outswap);
    if x >= 0 {
      var j := SwapFit(m.holes, m.swapBase, m.procs[x].size, 0);
      SwapToPartition(m, memory, x, j);
      SwapToOwned(m, memory, x, j, SwapOut(m).1);
    }
  }

  lemma {:induction false} AllocFirstKeeps(m: Mem, memory: set<int>, n: nat)
    requires MemInv(m, memory)
    ensures MemInv(AllocFirst(m, n).1, memory)
    decreases InCore(m.procs, m.lowUser)
  {
    var i := FirstFit(m.holes, m.swapBase, n, 0);
    if i >= 0 {
      TakeBlockKeeps(m, memory, i, n);
    } else if SwapOut(m).0 {
      SwapOutKeeps(m, memory);
      SwapOutProgress(m);
      AllocFirstKeeps(SwapOut(m).1, memory, n);
    }
  }

  lemma AllocKeeps(m: Mem, memory: set<int>, worst: bool, n: nat)
    requires MemInv(m, memory)
    ensures MemInv(Alloc(m, worst, n).1, memory)
  {
    if worst {
      var i := WorstFit(m.holes, n);
      if i >= 0 { TakeBlockKeeps(m, memory, i, n); }
    } else {
      AllocFirstKeeps(m, memory, n);
    }
  }

  /** Freeing a block that no process holds. */
  lemma ReleaseKeeps(m: Mem, memory: set<int>, base: int, n: nat)
    requires MemInv(m, memory) && Entry(base, n) <= m.blocks
    requires n > 0 ==> forall i :: Owner(m, i) ==> m.procs[i].phys != base
    ensures MemInv(Release(m, base, n), memory)
  {
    var r := Release(m, base, n);
    FreePartition(m.holes, m.blocks, memory, base, n, r.blocks);
    assert forall i :: Owner(r, i) <==> Owner(m, i);
  }

  // ---------------------------------------------------------------- what an allocation does

  /** Allocation changes no more of a process than its place; a process on swap stays where it is. */
  predicate Placed(e: MProc, f: MProc) {
    f == e || (e.Eligible() && f == e.(phys := f.phys, onSwap := true))
  }

  lemma {:induction false} AllocFirstFrame(m: Mem, n: nat)
    requires m.Wf()
    ensures AllocFirst(m, n).1.swapBase == m.swapBase
    ensures forall i :: m.UserSlot(i) ==> Placed(m.procs[i], AllocFirst(m, n).1.procs[i])
    decreases InCore(m.procs, m.lowUser)
  {
    if FirstFit(m.holes, m.swapBase, n, 0) < 0 && SwapOut(m).0 {
      SwapOutProgress(m);
      AllocFirstFrame(SwapOut(m).1, n);
    }
  }

  lemma AllocFrame(m: Mem, worst: bool, n: nat)
    requires m.Wf()
    ensures Alloc(m, worst, n).1.swapBase == m.swapBase
    ensures forall i :: m.UserSlot(i) ==> Placed(m.procs[i], Alloc(m, worst, n).1.procs[i])
  {
    if !worst { AllocFirstFrame(m, n); }
  }

  /** The block just returned, after the call: in the ledger, held by no process, and no longer free. */
  ghost predicate NewBlock(m: Mem, base: int, n: nat) {
    n > 0 ==>
      && Hole(base, n) in m.blocks
      && (forall i :: Owner(m, i) ==> m.procs[i].phys != base)
      && Span(base, n) !! Clicks(m.holes)
  }

  lemma TakeBlockNew(m: Mem, memory: set<int>, i: nat, n: nat)
    requires MemInv(m, memory) && i < |m.holes| && n <= m.holes[i].len
    ensures NewBlock(TakeBlock(m, i, n).1, m.holes[i].base, n)
  {
    if n > 0 {
      var r := TakeBlock(m, i, n).1;
      var b := Hole(m.holes[i].base, n);
      TakePartition(m.holes, m.blocks, memory, i, n, r.blocks);
      TakeKeeps(m.holes, i, n);
      forall k | Owner(r, k) ensures r.procs[k].phys != b.base {
        assert Owner(m, k);
        var o := Hole(r.procs[k].phys, r.procs[k].size);
        if o.base == b.base { SameBase(r.blocks, o, b); }
      }
    }
  }

  lemma {:induction false} AllocFirstNew(m: Mem, memory: set<int>, n: nat)
    requires MemInv(m, memory) && AllocFirst(m, n).0.Block?
    ensures NewBlock(AllocFirst(m, n).1, AllocFirst(m, n).0.base, n)
    ensures AllocFirst(m, n).0.base < m.swapBase
    decreases InCore(m.procs, m.lowUser)
  {
    var i := FirstFit(m.holes, m.swapBase, n, 0);
    if i >= 0 {
      TakeBlockNew(m, memory, i, n);
    } else if SwapOut(m).0 {
      SwapOutKeeps(m, memory);
      SwapOutProgress(m);
      AllocFirstNew(SwapOut(m).1, memory, n);
    }
  }

  lemma AllocNew(m: Mem, memory: set<int>, worst: bool, n: nat)
    requires MemInv(m, memory) && Alloc(m, worst, n).0.Block?
    ensures NewBlock(Alloc(m, worst, n).1, Alloc(m, worst, n).0.base, n)
    ensures !worst ==> Alloc(m, worst, n).0.base < m.swapBase
  {
    if worst { TakeBlockNew(m, memory, WorstFit(m.holes, n), n); } else { AllocFirstNew(m, memory, n); }
  }

  /** Between m and r process x has been moved to swap; b is the block it had. */
  predicate MovedFrom(m: Mem, r: Mem, x: int, b: Hole) {
    && Owner(m, x) && Owner(r, x) && m.procs[x].Eligible() && r.procs[x].onSwap
    && b == Hole(m.procs[x].phys, m.procs[x].size)
  }

  /** Between m and r process x has been moved to swap; b is the block it got. */
  predicate MovedTo(m: Mem, r: Mem, x: int, b: Hole) {
    && Owner(m, x) && Owner(r, x) && m.procs[x].Eligible() && r.procs[x].onSwap
    && b == Hole(r.procs[x].phys, r.procs[x].size)
  }

  ghost predicate Left(m: Mem, r: Mem, b: Hole) { exists x :: MovedFrom(m, r, x, b) }

  ghost predicate Arrived(m: Mem, r: Mem, b: Hole) { exists x :: MovedTo(m, r, x, b) }

  /** In a swap_out only its victim moves. */
  lemma SwapOutMoved(m: Mem, memory: set<int>, b: Hole)
    requires MemInv(m, memory) && SwapOut(m).0
    ensures var x, s := Victim(m, m.outswap), SwapOut(m).1;
      && (Left(m, s, b) <==> m.procs[x].live && b in Entry(m.procs[x].phys, m.procs[x].size))
      && (Arrived(m, s, b) <==> m.procs[x].live && b in Entry(s.procs[x].phys, m.procs[x].size))
  {
    hide Partition;
    var x, s := Victim(m, m.outswap), SwapOut(m).1;
    if m.procs[x].live && b in Entry(m.procs[x].phys, m.procs[x].size) { assert MovedFrom(m, s, x, b); }
    if m.procs[x].live && b in Entry(s.procs[x].phys, m.procs[x].size) { assert MovedTo(m, s, x, b); }
  }

  /** Nobody moves twice: the moves up to r are the first one and those behind it. */
  lemma MovesCompose(m: Mem, r: Mem, b: Hole)
    requires m.Wf() && SwapOut(m).0 && r.lowUser == m.lowUser && |r.procs| == |m.procs|
    requires forall i :: m.UserSlot(i) ==> Placed(SwapOut(m).1.procs[i], r.procs[i])
    ensures Left(m, r, b) <==> Left(m, SwapOut(m).1, b) || Left(SwapOut(m).1, r, b)
    ensures Arrived(m, r, b) <==> Arrived(m, SwapOut(m).1, b) || Arrived(SwapOut(m).1, r, b)
  {
    var s := SwapOut(m).1;
    var v := Victim(m, m.outswap);
    forall x ensures MovedFrom(m, r, x, b) <==> MovedFrom(m, s, x, b) || MovedFrom(s, r, x, b) {
      if Owner(m, x) { assert x != v ==> s.procs[x] == m.procs[x]; }
    }
    forall x ensures MovedTo(m, r, x, b) <==> MovedTo(m, s, x, b) || MovedTo(s, r, x, b) {
      if Owner(m, x) { assert x != v ==> s.procs[x] == m.procs[x]; }
    }
    assert Left(m, r, b) ==> exists x :: MovedFrom(m, s, x, b) || MovedFrom(s, r, x, b);
    assert Arrived(m, r, b) ==> exists x :: MovedTo(m, s, x, b) || MovedTo(s, r, x, b);
  }

  // ---------------------------------------------------------------- the ledger after an allocation

  /** b is the block returned, the new block of a process moved to swap, or an old block of nobody who moved. */
  ghost predicate Expected(m: Mem, out: Outcome, r: Mem, n: nat, b: Hole) {
    || (out.Block? && b in Entry(out.base, n))
    || Arrived(m, r, b)
    || (b in m.blocks && !Left(m, r, b))
  }

  lemma SwapOutLedger(m: Mem, memory: set<int>, b: Hole)
    requires MemInv(m, memory) && SwapOut(m).0
    ensures b in SwapOut(m).1.blocks <==> Arrived(m, SwapOut(m).1, b) || (b in m.blocks && !Left(m, SwapOut(m).1, b))
  {
    hide Partition;
    var x := Victim(m, m.outswap);
    assert m.procs[x].live;
    SwapOutMoved(m, memory, b);
  }

  /** The block a process has just been moved to is not given away again. */
  lemma ArrivedStays(m: Mem, memory: set<int>, r: Mem, b: Hole)
    requires MemInv(m, memory) && SwapOut(m).0 && Arrived(m, SwapOut(m).1, b)
    ensures !Left(SwapOut(m).1, r, b)
  {
    var s := SwapOut(m).1;
    SwapOutKeeps(m, memory);
    hide Partition;
    var x :| MovedTo(m, s, x, b);
    forall y ensures !MovedFrom(s, r, y, b) {
      assert Owner(s, y) && y != x ==> s.procs[y].phys != s.procs[x].phys;
    }
  }

  lemma NobodyMoved(m: Mem, r: Mem, b: Hole)
    requires r.procs == m.procs
    ensures !Left(m, r, b) && !Arrived(m, r, b)
  {
  }

  lemma {:induction false} AllocFirstLedger(m: Mem, memory: set<int>, n: nat, b: Hole)
    requires MemInv(m, memory)
    ensures b in AllocFirst(m, n).1.blocks <==> Expected(m, AllocFirst(m, n).0, AllocFirst(m, n).1, n, b)
    decreases InCore(m.procs, m.lowUser)
  {
    var (out, r) := AllocFirst(m, n);
    if FirstFit(m.holes, m.swapBase, n, 0) >= 0 || !SwapOut(m).0 {
      hide Left, Arrived;
      NobodyMoved(m, r, b);
    } else {
      var s := SwapOut(m).1;
      SwapOutKeeps(m, memory);
      SwapOutProgress(m);
      AllocFirstLedger(s, memory, n, b);
      AllocFirstFrame(s, n);
      hide MemInv, Left, Arrived;
      MovesCompose(m, r, b);
      SwapOutLedger(m, memory, b);
      if Arrived(m, s, b) { ArrivedStays(m, memory, r, b); }
    }
  }

  /** After alloc_mem the ledger holds the block returned, the new blocks of the processes moved to swap instead of
      their old ones, and otherwise what it held before. */
  lemma AllocLedger(m: Mem, memory: set<int>, worst: bool, n: nat, b: Hole)
    requires MemInv(m, memory)
    ensures b in Alloc(m, worst, n).1.blocks <==> Expected(m, Alloc(m, worst, n).0, Alloc(m, worst, n).1, n, b)
  {
    if worst { NobodyMoved(m, Alloc(m, worst, n).1, b); } else { AllocFirstLedger(m, memory, n, b); }
  }

  /** alloc_mem touches no block but those of processes it swaps out. */
  lemma AllocTouches(m: Mem, memory: set<int>, worst: bool, n: nat, b: Hole)
    requires MemInv(m, memory) && b in m.blocks
    ensures b in Alloc(m, worst, n).1.blocks || Left(m, Alloc(m, worst, n).1, b)
  {
    AllocLedger(m, memory, worst, n, b);
  }

  // ---------------------------------------------------------------- where the block came from

  /** The click was free in m, or belonged to a process that could be swapped out and has been. */
  ghost predicate WasFree(m: Mem, r: Mem, c: int) {
    c in Clicks(m.holes) || exists b :: Left(m, r, b) && Covers(b, c)
  }

  /** What one swap_out makes free is the block of the process that moved. */
  lemma SwapOutWasFree(m: Mem, memory: set<int>, r: Mem, c: int)
    requires MemInv(m, memory) && SwapOut(m).0 && WasFree(SwapOut(m).1, r, c)
    requires r.lowUser == m.lowUser && |r.procs| == |m.procs|
    requires forall i :: m.UserSlot(i) ==> Placed(SwapOut(m).1.procs[i], r.procs[i])
    ensures WasFree(m, r, c)
  {
    var s := SwapOut(m).1;
    var e := m.procs[Victim(m, m.outswap)];
    var j := SwapFit(m.holes, m.swapBase, e.size, 0);
    var was := Hole(e.phys, e.size);
    if e.size > 0 { assert Owner(m, Victim(m, m.outswap)); }
    MoveClicks(m.holes, m.blocks, memory, j, e.size, e.phys);
    if c in Clicks(s.holes) {
      if c in Span(e.phys, e.size) {
        SwapOutMoved(m, memory, was);
        MovesCompose(m, r, was);
        assert Left(m, r, was) && Covers(was, c);
      }
    } else {
      var b :| Left(s, r, b) && Covers(b, c);
      MovesCompose(m, r, b);
    }
  }

  lemma {:induction false} AllocFirstFresh(m: Mem, memory: set<int>, n: nat, c: int)
    requires MemInv(m, memory) && AllocFirst(m, n).0.Block? && c in Span(AllocFirst(m, n).0.base, n)
    ensures WasFree(m, AllocFirst(m, n).1, c)
    decreases InCore(m.procs, m.lowUser)
  {
    hide Clicks, Canonical, Take, Free;
    var i := FirstFit(m.holes, m.swapBase, n, 0);
    if i >= 0 {
      TakeKeeps(m.holes, i, n);
    } else {
      var s := SwapOut(m).1;
      SwapOutKeeps(m, memory);
      SwapOutProgress(m);
      AllocFirstFresh(s, memory, n, c);
      AllocFirstFrame(s, n);
      SwapOutWasFree(m, memory, AllocFirst(s, n).1, c);
    }
  }

  /** alloc_mem returns only clicks that were free, or that it took from processes it swapped out. */
  lemma AllocWasFree(m: Mem, memory: set<int>, worst: bool, n: nat, c: int)
    requires MemInv(m, memory) && Alloc(m, worst, n).0.Block? && c in Span(Alloc(m, worst, n).0.base, n)
    ensures WasFree(m, Alloc(m, worst, n).1, c)
  {
    hide Clicks, Canonical, Take, Free;
    if worst { TakeKeeps(m.holes, WorstFit(m.holes, n), n); } else { AllocFirstFresh(m, memory, n, c); }
  }

  /** So a block issued before and overlapping the new one has been given up by a process that was swapped out. */
  lemma AllocFresh(m: Mem, memory: set<int>, worst: bool, n: nat, b: Hole, c: int)
    requires MemInv(m, memory) && Alloc(m, worst, n).0.Block? && c in Span(Alloc(m, worst, n).0.base, n)
    requires b in m.blocks && Covers(b, c)
    ensures Left(m, Alloc(m, worst, n).1, b)
  {
    var r := Alloc(m, worst, n).1;
    AllocWasFree(m, memory, worst, n, c);
    assert Taken(m.blocks, c);
    var d :| Left(m, r, d) && Covers(d, c);
    var x :| MovedFrom(m, r, x, d);
    assert d in m.blocks;
  }

  /** First fit fails only when no core hole fits and no process that may be swapped fits any swap hole. */
  lemma {:induction false} NoMemComplete(m: Mem, memory: set<int>, n: nat)
    requires MemInv(m, memory) && AllocFirst(m, n).0.NoMem?
    ensures var r := AllocFirst(m, n).1;
      && (forall j :: 0 <= j < |r.holes| && r.holes[j].base < r.swapBase ==> r.holes[j].len < n)
      && (forall x, j :: r.UserSlot(x) && r.procs[x].Eligible() && 0 <= j < |r.holes| && r.holes[j].base >= r.swapBase
            ==> r.holes[j].len < r.procs[x].size)
    decreases InCore(m.procs, m.lowUser)
  {
    if SwapOut(m).0 {
      SwapOutKeeps(m, memory);
      SwapOutProgress(m);
      NoMemComplete(SwapOut(m).1, memory, n);
    } else {
      FirstFitComplete(m.holes, m.swapBase, n, 0);
      VictimComplete(m, m.outswap);
      forall x | m.UserSlot(x) && m.procs[x].Eligible() ensures SwapFit(m.holes, m.swapBase, m.procs[x].size, 0) < 0 {
        assert Ahead(m, m.outswap, x);
        assert !CanSwap(m, x);
      }
    }
  }

  /** Worst fit fails exactly when no hole at all fits. */
  lemma WorstNoMemIff(m: Mem, n: nat)
    requires m.Wf() && Canonical(m.holes)
    ensures Alloc(m, true, n).0.NoMem? <==> forall j :: 0 <= j < |m.holes| ==> m.holes[j].len < n
  {
    WorstFitCorrect(m.holes, n);
  }

  // ---------------------------------------------------------------- core and swap stay apart

  /** Processes on swap hold blocks above swap_base, all others below; the click under swap_base is no memory. */
  ghost predicate Separate(m: Mem, memory: set<int>) {
    && m.swapBase - 1 !in memory
    && forall i :: Owner(m, i) ==> (m.procs[i].onSwap <==> m.procs[i].phys >= m.swapBase)
  }

  /** Nothing reaches over the click under swap_base. */
  lemma NoStraddle(m: Mem, memory: set<int>, b: Hole)
    requires MemInv(m, memory) && m.swapBase - 1 !in memory && b.len > 0
    requires b in m.blocks || b in m.holes
    ensures b.base < m.swapBase <==> b.End() < m.swapBase
  {
    var c := m.swapBase - 1;
    ClicksIn(m.holes, c);
    assert b in m.blocks && Covers(b, c) ==> Taken(m.blocks, c);
  }

  /** swap_out moves one process: exactly its size in clicks becomes free below swap_base and used above. */
  lemma SwapOutMoves(m: Mem, memory: set<int>)
    requires MemInv(m, memory) && Separate(m, memory) && SwapOut(m).0
    ensures var r := SwapOut(m).1; var e, f := m.procs[r.outswap], r.procs[r.outswap];
      && e.Eligible() && f.onSwap
      && (forall c :: c in Span(e.phys, e.size) ==> c < m.swapBase - 1 && c !in Clicks(m.holes))
      && (forall c :: c in Span(f.phys, e.size) ==> c >= m.swapBase && c in Clicks(m.holes))
      && Clicks(r.holes) == Clicks(m.holes) - Span(f.phys, e.size) + Span(e.phys, e.size)
  {
    var x := Victim(m, m.outswap);
    var e := m.procs[x];
    var j := SwapFit(m.holes, m.swapBase, e.size, 0);
    if e.size > 0 {
      assert Owner(m, x);
      NoStraddle(m, memory, Hole(e.phys, e.size));
    }
    MoveClicks(m.holes, m.blocks, memory, j, e.size, e.phys);
  }

  lemma SwapOutSeparate(m: Mem, memory: set<int>)
    requires MemInv(m, memory) && Separate(m, memory)
    ensures Separate(SwapOut(m).1, memory)
  {
    var r := SwapOut(m).1;
    forall i | Owner(r, i) ensures r.procs[i].onSwap <==> r.procs[i].phys >= r.swapBase {
      assert Owner(m, i);
    }
  }

  lemma {:induction false} AllocFirstSeparate(m: Mem, memory: set<int>, n: nat)
    requires MemInv(m, memory) && Separate(m, memory)
    ensures Separate(AllocFirst(m, n).1, memory)
    decreases InCore(m.procs, m.lowUser)
  {
    var i := FirstFit(m.holes, m.swapBase, n, 0);
    if i >= 0 {
      assert forall k :: Owner(TakeBlock(m, i, n).1, k) ==> Owner(m, k);
    } else if SwapOut(m).0 {
      SwapOutSeparate(m, memory);
      SwapOutKeeps(m, memory);
      SwapOutProgress(m);
      AllocFirstSeparate(SwapOut(m).1, memory, n);
    }
  }

  /** Some core hole has at least len clicks. */
  ghost predicate CoreHas(h: seq<Hole>, limit: int, len: int) {
    exists i :: 0 <= i < |h| && h[i].base < limit && h[i].len >= len
  }

  /** For every swap hole some core hole is at least as long. */
  ghost predicate CoreCovers(h: seq<Hole>, limit: int) {
    forall j :: 0 <= j < |h| && h[j].base >= limit ==> CoreHas(h, limit, h[j].len)
  }

  lemma BelowMeansBefore(h: seq<Hole>, i: nat, j: nat)
    requires Canonical(h) && i < |h| && j < |h| && h[i].base < h[j].base
    ensures i < j
  {
    if j < i { Ordered(h, j, i); }
  }

  /** Worst fit ignores swap_base: its block lies in core exactly when no swap hole is longer than all core holes. */
  lemma WorstInCoreIff(m: Mem, n: nat)
    requires m.Wf() && Canonical(m.holes) && Alloc(m, true, n).0.Block?
    ensures Alloc(m, true, n).0.base < m.swapBase <==> CoreCovers(m.holes, m.swapBase)
  {
    var h, limit, w := m.holes, m.swapBase, WorstFit(m.holes, n);
    WorstFitCorrect(h, n);
    if h[w].base < limit {
      forall j | 0 <= j < |h| && h[j].base >= limit ensures CoreHas(h, limit, h[j].len) {
        assert h[w].len >= h[j].len;
      }
    } else if CoreHas(h, limit, h[w].len) {
      var i :| 0 <= i < |h| && h[i].base < limit && h[i].len >= h[w].len;
      BelowMeansBefore(h, i, w);
      assert false;
    }
  }

  /** An allocation of n clicks takes core, or takes nothing. */
  ghost predicate TakesCore(m: Mem, worst: bool, n: nat) {
    worst && n > 0 ==> CoreCovers(m.holes, m.swapBase) || forall j :: 0 <= j < |m.holes| ==> m.holes[j].len < n
  }

  lemma TakesCoreIff(m: Mem, memory: set<int>, worst: bool, n: nat)
    requires MemInv(m, memory) && n > 0
    ensures TakesCore(m, worst, n) <==> (Alloc(m, worst, n).0.Block? ==> Alloc(m, worst, n).0.base < m.swapBase)
  {
    if worst {
      WorstNoMemIff(m, n);
      if Alloc(m, true, n).0.Block? { WorstInCoreIff(m, n); }
    } else if Alloc(m, false, n).0.Block? {
      AllocNew(m, memory, false, n);
    }
  }

  /** So with swap on it can hand out swap space as core. */
  lemma WorstCanLeaveCore() returns (m: Mem, memory: set<int>)
    ensures MemInv(m, memory) && Separate(m, memory)
    ensures Alloc(m, true, 1).0.Block? && Alloc(m, true, 1).0.base >= m.swapBase
  {
    var h := [Hole(0, 1), Hole(3, 2)];
    m := Mem(h, [MProc(false, false, false, false, false, 0, 0)], 0, 0, 3, {});
    memory := Clicks(h);
    ClicksIn(h, 2);
    assert Canonical(h);
    hide Clicks, Canonical;
    NothingTaken(m, memory);
    LongerIsWorst(h);
  }

  lemma NothingTaken(m: Mem, memory: set<int>)
    requires m.Wf() && Canonical(m.holes) && memory == Clicks(m.holes) && m.blocks == {}
    requires forall i :: m.UserSlot(i) ==> !m.procs[i].live && !m.procs[i].waits && !m.procs[i].queued
    requires m.swapBase - 1 !in memory
    ensures MemInv(m, memory) && Separate(m, memory)
  {
    hide Clicks, Canonical;
    assert forall c :: !Taken(m.blocks, c);
    assert forall i :: !Owner(m, i);
  }

  lemma LongerIsWorst(h: seq<Hole>)
    requires Canonical(h) && |h| == 2 && 0 < h[0].len < h[1].len
    ensures WorstFit(h, 1) == 1
  {
    assert IsWorst(h, 1, 2, 1);
    WorstFitCorrect(h, 1);
  }

  // ---------------------------------------------------------------- the hole table cannot overflow

  function Ends(h: seq<Hole>): set<int> {
    if h == [] then {} else {h[0].End()} + Ends(h[1..])
  }

  lemma {:induction false} EndsIn(h: seq<Hole>, c: int)
    ensures c in Ends(h) <==> exists i :: 0 <= i < |h| && h[i].End() == c
  {
    if h != [] {
      EndsIn(h[1..], c);
      if exists i :: 0 <= i < |h| && h[i].End() == c {
        var i :| 0 <= i < |h| && h[i].End() == c;
        if i > 0 { assert h[1..][i - 1] == h[i]; }
      }
    }
  }

  lemma {:induction false} EndsAtMost(h: seq<Hole>)
    ensures |Ends(h)| <= |h|
  {
    if h != [] { EndsAtMost(h[1..]); }
  }

  lemma {:induction false} EndsDistinct(h: seq<Hole>)
    requires Canonical(h)
    ensures |Ends(h)| == |h|
  {
    if h != [] {
      EndsDistinct(h[1..]);
      EndsIn(h[1..], h[0].End());
      forall i | 0 <= i < |h| - 1 ensures h[1..][i].End() > h[0].End() { Ordered(h, 0, i + 1); }
    }
  }

  function Bases(blocks: set<Hole>): set<int> {
    set b | b in blocks :: b.base
  }

  lemma {:induction false} BasesAtMost(blocks: set<Hole>)
    ensures |Bases(blocks)| <= |blocks|
  {
    if b :| b in blocks {
      BasesAtMost(blocks - {b});
      assert Bases(blocks) == Bases(blocks - {b}) + {b.base};
    }
  }

  lemma Subset(a: set<int>, b: set<int>)
    requires a <= b
    ensures |a| <= |b|
  {
    assert b == a + (b - a);
  }

  /** The click behind a hole is not free, the one before it is. */
  lemma EndNotFree(holes: seq<Hole>, i: nat)
    requires Canonical(holes) && i < |holes|
    ensures holes[i].End() !in Clicks(holes) && holes[i].End() - 1 in Clicks(holes)
  {
    var c := holes[i].End();
    ClicksIn(holes, c);
    ClicksIn(holes, c - 1);
    forall j | 0 <= j < |holes| ensures !(holes[j].base <= c < holes[j].End()) {
      if j < i { Ordered(holes, j, i); } else if i < j { Ordered(holes, i, j); }
    }
  }

  lemma EndOfChunk(chunks: seq<Hole>, c: int)
    requires c !in Clicks(chunks) && c - 1 in Clicks(chunks)
    ensures c in Ends(chunks)
  {
    ClicksIn(chunks, c);
    ClicksIn(chunks, c - 1);
    var k :| 0 <= k < |chunks| && chunks[k].base <= c - 1 < chunks[k].End();
    EndsIn(chunks, c);
  }

  /** Behind every hole lies an outstanding block or the end of a chunk of memory. */
  lemma EndOfHole(holes: seq<Hole>, blocks: set<Hole>, chunks: seq<Hole>, i: nat)
    requires Partition(holes, blocks, Clicks(chunks)) && i < |holes|
    ensures holes[i].End() in Bases(blocks) + Ends(chunks)
  {
    hide Clicks, Ends, Canonical;
    var c := holes[i].End();
    EndNotFree(holes, i);
    if Taken(blocks, c) {
      var b :| b in blocks && Covers(b, c);
      assert Covers(b, c - 1) ==> Taken(blocks, c - 1);
      assert b.base in Bases(blocks);
    } else {
      EndOfChunk(chunks, c);
    }
  }

  /** There are never more holes than outstanding blocks and chunks of memory together. */
  lemma HoleBound(holes: seq<Hole>, blocks: set<Hole>, chunks: seq<Hole>)
    requires Partition(holes, blocks, Clicks(chunks))
    ensures |holes| <= |blocks| + |chunks|
  {
    EndsDistinct(holes);
    forall c | c in Ends(holes) ensures c in Bases(blocks) + Ends(chunks) {
      EndsIn(holes, c);
      var i :| 0 <= i < |holes| && holes[i].End() == c;
      EndOfHole(holes, blocks, chunks, i);
    }
    Subset(Ends(holes), Bases(blocks) + Ends(chunks));
    BasesAtMost(blocks);
    EndsAtMost(chunks);
  }
}
