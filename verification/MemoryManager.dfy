/**
 The allocator with its processes, updated in place: alloc_mem with its swapping retry loop, the circular scan of
 swap_out, and the queue of processes waiting to be swapped in, linked through the process slots.
 */
module MemoryManager {
  import opened Lists
  import opened IntrusiveList
  import opened HoleList
  import opened Fits
  import opened Memory
  import opened Ledger
  import opened MemoryRuns
  import HoleTable

  /** swap_out moves an entry of the ledger: the number of blocks stays the same. */
  lemma SwapOutBlocks(m: Mem, memory: set<int>)
    requires MemInv(m, memory)
    ensures |SwapOut(m).1.blocks| == |m.blocks|
  {
    var x := Victim(m, m.outswap);
    if x >= 0 && m.procs[x].size > 0 {
      var j := SwapFit(m.holes, m.swapBase, m.procs[x].size, 0);
      var e := Hole(m.procs[x].phys, m.procs[x].size);
      SwapToPartition(m, memory, x, j);
      assert Owner(m, x);
      assert |m.blocks - {e}| == |m.blocks| - 1;
    }
  }

  /** A successful allocation adds one entry to the ledger; the holes stay within the old bound. */
  lemma {:induction false} AllocFirstBlocks(m: Mem, chunks: seq<Hole>, n: nat)
    requires MemInv(m, Clicks(chunks))
    ensures var r := AllocFirst(m, n);
      |r.1.blocks| == |m.blocks| + (if r.0.Block? && n > 0 then 1 else 0) && |r.1.holes| <= |m.blocks| + |chunks|
    decreases InCore(m.procs, m.lowUser)
  {
    hide Partition, Clicks, Victim, SwapTo;
    var i := FirstFit(m.holes, m.swapBase, n, 0);
    HoleBound(m.holes, m.blocks, chunks);
    if i >= 0 {
      TakePartition(m.holes, m.blocks, Clicks(chunks), i, n, m.blocks + Entry(m.holes[i].base, n));
    } else if Memory.SwapOut(m).0 {
      SwapOutBlocks(m, Clicks(chunks));
      SwapOutKeeps(m, Clicks(chunks));
      SwapOutProgress(m);
      AllocFirstBlocks(Memory.SwapOut(m).1, chunks, n);
    }
  }

  lemma AllocBlocks(m: Mem, chunks: seq<Hole>, worst: bool, n: nat)
    requires MemInv(m, Clicks(chunks))
    ensures var r := Alloc(m, worst, n);
      |r.1.blocks| == |m.blocks| + (if r.0.Block? && n > 0 then 1 else 0) && |r.1.holes| <= |m.blocks| + |chunks|
  {
    hide Partition, Clicks, AllocFirst, WorstFit;
    if worst {
      var i := WorstFit(m.holes, n);
      HoleBound(m.holes, m.blocks, chunks);
      if i >= 0 { TakePartition(m.holes, m.blocks, Clicks(chunks), i, n, m.blocks + Entry(m.holes[i].base, n)); }
    } else {
      AllocFirstBlocks(m, chunks, n);
    }
  }

  /** Swapping a process in replaces one entry of the ledger. */
  lemma SwapInOneBlocks(m: Mem, chunks: seq<Hole>, worst: bool, x: int)
    requires MemInv(m, Clicks(chunks)) && m.UserSlot(x) && m.procs[x].queued
    ensures |Memory.SwapInOne(m, worst, x).1.blocks| == |m.blocks|
  {
    var n := m.procs[x].size;
    var a := Alloc(m, worst, n);
    AllocBlocks(m, chunks, worst, n);
    AllocFrame(m, worst, n);
    AllocKeeps(m, Clicks(chunks), worst, n);
    assert Placed(m.procs[x], a.1.procs[x]);
    if a.0.Block? && n > 0 {
      assert Owner(a.1, x);
      assert Hole(a.1.procs[x].phys, n) in a.1.blocks;
    }
  }

  lemma SwapInEmpty(m: Mem, worst: bool)
    requires m.Wf()
    ensures Slots(m, []) && Memory.SwapIn(m, worst, []) == (m, [])
  {
  }

  /** What the walk of swap_in does about process x. */
  predicate SwapStep(m: Mem, worst: bool, x: int, stays: bool, r: Mem)
    requires m.Wf() && m.UserSlot(x)
  {
    if !m.procs[x].queued then r == m && !stays
    else (var one := Memory.SwapInOne(m, worst, x); r == one.1 && stays == one.0.NoMem?)
  }

  lemma SlotsHead(m: Mem, q: seq<int>)
    requires Slots(m, q) && q != []
    ensures m.UserSlot(q[0])
  {
  }

  /** After entry k has been dealt with, the rest of the walk is the walk of the rest. */
  lemma SwapStepDone(m: Mem, worst: bool, q: seq<int>, k: nat, stays: bool, r: Mem)
    requires m.Wf() && r.Wf() && k < |q| && Slots(m, q[k..]) && m.UserSlot(q[k]) && SwapStep(m, worst, q[k], stays, r)
    ensures Slots(r, q[k + 1..])
    ensures var w := Memory.SwapIn(m, worst, q[k..]); var more := Memory.SwapIn(r, worst, q[k + 1..]);
      w.0 == more.0 && q[..k] + w.1 == (if stays then q[..k + 1] else q[..k]) + more.1
  {
    hide Memory.SwapInOne;
    assert q[k..][1..] == q[k + 1..] && q[..k + 1] == q[..k] + [q[k]];
  }

  function IndexOf(q: seq<int>, x: int): (r: nat)
    ensures r <= |q| && (r < |q| ==> q[r] == x) && (x in q ==> r < |q|)
  {
    if q == [] || q[0] == x then 0 else IndexOf(q[1..], x) + 1
  }

  /** swap_inqueue for a process without SWAPIN: one that is still linked cuts off everything behind it. */
  function Queued(q: seq<int>, x: int): (r: seq<int>) {
    if x in q then q[..IndexOf(q, x) + 1] else q + [x]
  }

  /** A process that is not linked is appended; behind one that still is, the queue ends. */
  lemma QueuedEffect(q: seq<int>, x: int)
    ensures if x !in q then Queued(q, x) == q + [x]
      else exists i :: 0 <= i < |q| && q[i] == x && x !in q[..i] && Queued(q, x) == q[..i + 1]
  {
    if x in q {
      IndexFirst(q, x);
      var i := IndexOf(q, x);
      assert q[i] == x && Queued(q, x) == q[..i + 1];
    }
  }

  lemma {:induction false} IndexFirst(q: seq<int>, x: int)
    requires x in q
    ensures IndexOf(q, x) < |q| && q[IndexOf(q, x)] == x && x !in q[..IndexOf(q, x)]
  {
    if q[0] != x {
      IndexFirst(q[1..], x);
      var i := IndexOf(q[1..], x);
      assert q[..i + 1] == [q[0]] + q[1..][..i];
    }
  }

  /** So the queue loses no process exactly when x is not linked any more, or is the last. */
  lemma QueueLosesNoneIff(q: seq<int>, x: int)
    requires NoDup(q)
    ensures (forall y :: y in q ==> y in Queued(q, x)) <==> (x !in q || q[|q| - 1] == x)
  {
    if x in q {
      var i := IndexOf(q, x);
      if i < |q| - 1 { assert q[|q| - 1] in q && q[|q| - 1] !in q[..i + 1]; }
    }
  }

  /** What the kernel reports before the empty chunk that ends the list. */
  function Reported(chunks: seq<Hole>): seq<Hole> {
    if chunks == [] || chunks[0].len == 0 then [] else [chunks[0]] + Reported(chunks[1..])
  }

  lemma {:induction false} ReportedPrefix(chunks: seq<Hole>)
    ensures Reported(chunks) <= chunks && (forall i :: 0 <= i < |Reported(chunks)| ==> chunks[i].len != 0)
    ensures |Reported(chunks)| < |chunks| ==> chunks[|Reported(chunks)|].len == 0
  {
    if chunks != [] && chunks[0].len != 0 { ReportedPrefix(chunks[1..]); }
  }

  function Total(chunks: seq<Hole>): int {
    if chunks == [] then 0 else Total(Init(chunks)) + Last(chunks).len
  }

  /** One step of the circular scan. */
  lemma VictimStep(m: Mem, i: int)
    requires m.Wf() && m.UserSlot(i)
    ensures var x := Next(m, i);
      && Victim(m, i) == (if CanSwap(m, x) then x else if x == m.outswap then -1 else Victim(m, x))
      && (x != m.outswap ==> Distance(m, x) < Distance(m, i))
  {
  }

  lemma PrefixStart()
    ensures FreeAll([]) == [] && TopOf([]) == 0 && Total([]) == 0
  {
  }

  lemma PrefixStep(r: seq<Hole>, i: nat)
    requires i < |r|
    ensures FreeAll(r[..i + 1]) == Free(FreeAll(r[..i]), r[i].base, Size(r[i]))
    ensures TopOf(r[..i + 1]) == if TopOf(r[..i]) < r[i].End() then r[i].End() else TopOf(r[..i])
    ensures Total(r[..i + 1]) == Total(r[..i]) + r[i].len
  {
    var s := r[..i + 1];
    assert Init(s) == r[..i] && Last(s) == r[i];
  }

  class Manager {
    const tab: HoleTable.Table
    const procs: array<MProc>
    const swapq: array<int>     // mp_swapq
    const lowUser: nat
    var outswap: int
    var swapBase: int
    var inQueue: int
    ghost var blocks: set<Hole>
    ghost var queue: seq<int>

    ghost predicate Valid()
      reads this, tab, tab.link, tab.base, tab.len, procs, swapq
    {
      && tab.Valid() && lowUser <= outswap < procs.Length == swapq.Length
      && swapq != tab.link && swapq != tab.base && swapq != tab.len
      && NoDup(queue) && IsList(swapq[..], inQueue, queue) && forall k :: 0 <= k < |queue| ==> lowUser <= queue[k]
    }

    constructor (slots: nat, lowUser: nat, n: nat)
      requires slots > 0 && lowUser < n
      ensures Valid() && fresh(tab) && fresh(tab.link) && fresh(tab.base) && fresh(tab.len)
        && fresh(procs) && fresh(swapq)
      ensures tab.link.Length == slots && tab.list == [] && procs.Length == n && swapBase == 0
        && queue == [] && blocks == {}
      ensures this.lowUser == lowUser == outswap && Dead(procs[..])
    {
      tab := new HoleTable.Table(slots);
      procs := new MProc[n](_ => MProc(false, false, false, false, false, 0, 0));
      swapq := new int[n];
      this.lowUser, outswap, swapBase, inQueue := lowUser, lowUser, 0, NIL;
      blocks, queue := {}, [];
    }

    ghost function St(): (m: Mem)
      reads this, tab, tab.link, tab.base, tab.len, procs, swapq
      requires Valid()
      ensures m.Wf() && |m.procs| == procs.Length && m.lowUser == lowUser
    {
      Mem(tab.Holes(), procs[..], lowUser, outswap, swapBase, blocks)
    }

    /** One chunk of mem_init. */
    method AddChunk(b: int, n: nat) returns (panicked: bool)
      requires Valid()
      modifies tab, tab.link, tab.base, tab.len, `swapBase
      ensures Valid() && (!panicked ==> tab.Holes() == Free(old(tab.Holes()), b, n))
      ensures swapBase == if old(swapBase) < b + n then b + n else old(swapBase)
    {
      hide IsList, NoDup, HoleTable.Slots, Free;
      panicked := tab.FreeMem(b, n);
      if swapBase < b + n { swapBase := b + n; }
    }

    /** mem_init's second loop over the chunks the kernel reports, up to the first empty one. */
    method MemInit(chunks: seq<Hole>) returns (freeClicks: int, panicked: bool)
      requires Valid() && tab.list == [] && swapBase == 0 && forall i :: 0 <= i < |chunks| ==> chunks[i].len >= 0
      modifies tab, tab.link, tab.base, tab.len, `swapBase
      ensures Valid() && (!panicked ==>
        tab.Holes() == FreeAll(Reported(chunks)) && swapBase == TopOf(Reported(chunks)) + 1)
      ensures !panicked ==> freeClicks == Total(Reported(chunks))
    {
      hide IsList, NoDup, HoleTable.Slots, FreeAll, TopOf, Total, Free, Reported;
      freeClicks := 0;
      PrefixStart();
      var i := 0;
      ghost var r := Reported(chunks);
      ReportedPrefix(chunks);
      while i < |chunks| && chunks[i].len != 0
        invariant 0 <= i <= |r| && r <= chunks && Valid()
        invariant tab.Holes() == FreeAll(r[..i]) && swapBase == TopOf(r[..i]) && freeClicks == Total(r[..i])
        decreases |chunks| - i
      {
        PrefixStep(r, i);
        panicked := AddChunk(chunks[i].base, chunks[i].len);
        if panicked { return; }
        freeClicks := freeClicks + chunks[i].len;
        i := i + 1;
      }
      assert r[..i] == r;
      swapBase := swapBase + 1;
      panicked := false;
    }

    /** swap_out after a victim and a swap hole have been found. */
    method MoveOut(x: int, hp: int, prev: int, ghost j: nat) returns (panicked: bool)
      requires Valid() && St().UserSlot(x) && j < |tab.list| && hp == tab.list[j] && (j > 0 ==> prev == tab.list[j - 1])
      requires procs[x].size <= tab.len[hp]
      modifies tab, tab.link, tab.base, tab.len, procs, `outswap, `blocks
      ensures Valid() && (!panicked ==> St() == SwapTo(old(St()), x, j))
      ensures |old(tab.list)| < tab.link.Length ==> !panicked
    {
      hide Manager.Valid, Take, Free;
      var e := procs[x];
      var start := BiteHole(prev, hp, e.size, j);
      panicked := FreeHole(e.phys, e.size);
      Moved(x, e, start);
    }

    method BiteHole(prev: int, hp: int, n: nat, ghost j: nat) returns (start: int)
      requires Valid() && j < |tab.list| && hp == tab.list[j] && (j > 0 ==> prev == tab.list[j - 1]) && n <= tab.len[hp]
      modifies tab, tab.link, tab.base, tab.len
      ensures Valid() && |tab.list| <= |old(tab.list)| && start == old(tab.Holes())[j].base
      ensures St() == old(St()).(holes := Take(old(tab.Holes()), j, n))
    {
      hide IsList, NoDup, HoleTable.Slots, Take;
      start := tab.Bite(prev, hp, n, j);
    }

    method FreeHole(base: int, n: nat) returns (panicked: bool)
      requires Valid()
      modifies tab, tab.link, tab.base, tab.len
      ensures Valid() && panicked == (n > 0 && |old(tab.list)| == tab.link.Length)
      ensures !panicked ==> St() == old(St()).(holes := Free(old(tab.Holes()), base, n))
    {
      hide IsList, NoDup, HoleTable.Slots, Free;
      panicked := tab.FreeMem(base, n);
    }

    /** The bookkeeping of swap_out: the segment lies elsewhere, ONSWAP is set, and the next scan starts here. */
    method Moved(x: int, e: MProc, start: int)
      requires Valid() && St().UserSlot(x) && e == procs[x]
      modifies procs, `outswap, `blocks
      ensures Valid()
      ensures St() == old(St()).(procs := old(procs[..])[x := e.(phys := start, onSwap := true)], outswap := x,
                                 blocks := old(blocks) - Entry(e.phys, e.size) + Entry(start, e.size))
    {
      hide IsList, NoDup, HoleTable.Slots;
      procs[x] := e.(phys := start, onSwap := true);
      outswap := x;
      blocks := blocks - Entry(e.phys, e.size) + Entry(start, e.size);
    }

    /** The do-while scan of swap_out: a process that can be swapped out and the hole it fits, or x == NIL. */
    method FindVictim() returns (x: int, hp: int, prev: int, ghost j: int)
      requires Valid()
      ensures x == Victim(St(), outswap)
      ensures x >= 0 ==> j == SwapFit(St().holes, swapBase, procs[x].size, 0) && 0 <= j < |tab.list|
      ensures x >= 0 ==> hp == tab.list[j] && (j > 0 ==> prev == tab.list[j - 1])
    {
      hide IsList, NoDup, HoleTable.Slots, Victim, SwapFit, Distance;
      x := outswap;
      while true
        invariant lowUser <= x < procs.Length && Victim(St(), outswap) == Victim(St(), x)
        decreases Distance(St(), x)
      {
        VictimStep(St(), x);
        x := x + 1;
        if x == procs.Length { x := lowUser; }
        if procs[x].waits && !procs[x].avoid && !procs[x].onSwap {
          hp, prev, j := tab.FindSwap(swapBase, procs[x].size);
          if hp != NIL { return; }
        }
        if x == outswap {
          x, hp, prev, j := NIL, NIL, NIL, -1;
          return;
        }
      }
    }

    method SwapOut() returns (moved: bool, panicked: bool)
      requires Valid()
      modifies tab, tab.link, tab.base, tab.len, procs, `outswap, `blocks
      ensures Valid() && (!panicked ==> (moved, St()) == Memory.SwapOut(old(St())))
      ensures |old(tab.list)| < tab.link.Length ==> !panicked
    {
      hide IsList, NoDup, HoleTable.Slots;
      var x, hp, prev, j := FindVictim();
      if x == NIL { return false, false; }
      panicked := MoveOut(x, hp, prev, j);
      moved := true;
    }

    /** One pass of first fit. */
    method TryFirst(n: nat) returns (out: Outcome)
      requires Valid()
      modifies tab, tab.link, tab.base, tab.len, `blocks
      ensures Valid() && var i := FirstFit(old(tab.Holes()), swapBase, n, 0);
        (out, St()) == if i < 0 then (NoMem, old(St())) else TakeBlock(old(St()), i, n)
    {
      hide IsList, NoDup, HoleTable.Slots;
      var hp, prev, j := tab.FindFirst(swapBase, n);
      if hp == NIL { return NoMem; }
      out := BiteBlock(prev, hp, n, j);
    }

    method TryWorst(n: nat) returns (out: Outcome)
      requires Valid()
      modifies tab, tab.link, tab.base, tab.len, `blocks
      ensures Valid() && (out, St()) == Alloc(old(St()), true, n)
    {
      hide IsList, NoDup, HoleTable.Slots;
      var hp, prev, j := tab.FindWorst(n);
      if hp == NIL { return NoMem; }
      out := BiteBlock(prev, hp, n, j);
    }

    /** One round of first fit: a pass, and if it fails one attempt to swap a process out. */
    method FirstRound(n: nat, ghost chunks: seq<Hole>) returns (again: bool, out: Outcome, panicked: bool)
      requires Valid() && MemInv(St(), Clicks(chunks))
      modifies tab, tab.link, tab.base, tab.len, procs, `outswap, `blocks
      ensures Valid() && (!again && !panicked ==> (out, St()) == AllocFirst(old(St()), n))
      ensures again && !panicked ==> MemInv(St(), Clicks(chunks)) && |blocks| == |old(blocks)|
      ensures again && !panicked ==>
        && AllocFirst(old(St()), n) == AllocFirst(St(), n)
        && InCore(St().procs, lowUser) < InCore(old(St()).procs, lowUser)
      ensures |old(blocks)| + |chunks| < tab.link.Length ==> !panicked
    {
      hide IsList, NoDup, HoleTable.Slots;
      ghost var m := St();
      out := TryFirst(n);
      again, panicked := false, false;
      if out.NoMem? {
        HoleBound(m.holes, blocks, chunks);
        SwapOutKeeps(m, Clicks(chunks));
        SwapOutBlocks(m, Clicks(chunks));
        again, panicked := SwapOut();
        if again && !panicked { SwapOutProgress(m); }
      }
    }

    /** alloc_mem */
    method AllocMem(worst: bool, n: nat, ghost chunks: seq<Hole>) returns (out: Outcome, panicked: bool)
      requires Valid() && MemInv(St(), Clicks(chunks))
      modifies tab, tab.link, tab.base, tab.len, procs, `outswap, `blocks
      ensures Valid() && (!panicked ==> (out, St()) == Alloc(old(St()), worst, n))
      ensures |old(blocks)| + |chunks| < tab.link.Length ==> !panicked
    {
      hide IsList, NoDup, HoleTable.Slots;
      if worst {
        out := TryWorst(n);
        return out, false;
      }
      out, panicked := NoMem, false;
      var again := true;
      while again
        invariant Valid() && (again ==> MemInv(St(), Clicks(chunks)) && |blocks| == |old(blocks)|)
        invariant again ==> AllocFirst(old(St()), n) == AllocFirst(St(), n)
        invariant !again ==> !panicked && (out, St()) == AllocFirst(old(St()), n)
        decreases again, if again then InCore(St().procs, lowUser) else 0
      {
        again, out, panicked := FirstRound(n, chunks);
        if panicked { return; }
      }
    }

    method BiteBlock(prev: int, hp: int, n: nat, ghost j: nat) returns (out: Outcome)
      requires Valid() && j < |tab.list| && hp == tab.list[j] && (j > 0 ==> prev == tab.list[j - 1]) && n <= tab.len[hp]
      modifies tab, tab.link, tab.base, tab.len, `blocks
      ensures Valid() && (out, St()) == TakeBlock(old(St()), j, n)
    {
      hide IsList, NoDup, HoleTable.Slots, Take;
      var start := BiteHole(prev, hp, n, j);
      blocks := blocks + Entry(start, n);
      out := Block(start);
    }

    /** Try to bring process x back to core: allocate, move, free its swap block. */
    method SwapInOne(worst: bool, x: int, ghost chunks: seq<Hole>) returns (out: Outcome, panicked: bool)
      requires Valid() && MemInv(St(), Clicks(chunks)) && lowUser <= x < procs.Length && procs[x].queued
      modifies tab, tab.link, tab.base, tab.len, procs, `outswap, `blocks
      ensures Valid() && (!panicked ==> (out, St()) == Memory.SwapInOne(old(St()), worst, x))
      ensures |old(blocks)| + |chunks| < tab.link.Length ==> !panicked
    {
      hide IsList, NoDup, HoleTable.Slots, MemInv, Alloc, Free;
      AllocBlocks(St(), chunks, worst, procs[x].size);
      var size := procs[x].size;
      out, panicked := AllocMem(worst, size, chunks);
      if panicked || out.NoMem? { return; }
      assert |tab.list| == |St().holes|;
      panicked := MoveIn(x, out.base, size);
    }

    method MoveIn(x: int, start: int, size: nat) returns (panicked: bool)
      requires Valid() && lowUser <= x < procs.Length
      modifies tab, tab.link, tab.base, tab.len, procs, `blocks
      ensures Valid() && panicked == (size > 0 && |old(tab.list)| == tab.link.Length)
      ensures !panicked ==>
        var f := old(procs[x]).(phys := start, onSwap := false, queued := false);
        St() == Release(old(St()).(procs := old(procs[..])[x := f]), old(procs[x]).phys, size)
    {
      hide Manager.Valid;
      var oldBase := procs[x].phys;
      var e := procs[x].(phys := start);
      SetProc(x, e);
      panicked := FreeBlock(oldBase, size);
      SetProc(x, e.(onSwap := false, queued := false));
    }

    /** free_mem, with its entry in the ledger. */
    method FreeBlock(base: int, n: nat) returns (panicked: bool)
      requires Valid()
      modifies tab, tab.link, tab.base, tab.len, `blocks
      ensures Valid() && panicked == (n > 0 && |old(tab.list)| == tab.link.Length)
      ensures !panicked ==> St() == Release(old(St()), base, n)
    {
      hide IsList, NoDup, HoleTable.Slots, Free;
      panicked := FreeHole(base, n);
      blocks := blocks - Entry(base, n);
    }

    /** What killing a queued process does to its slot. */
    method ClearQueued(x: int)
      requires Valid() && lowUser <= x < procs.Length
      modifies procs
      ensures Valid() && procs[..] == old(procs[..])[x := old(procs[x]).(queued := false)]
    {
      hide IsList, NoDup, HoleTable.Slots;
      procs[x] := procs[x].(queued := false);
    }

    method SetProc(x: int, e: MProc)
      requires Valid() && lowUser <= x < procs.Length
      modifies procs
      ensures Valid() && St() == old(St()).(procs := old(procs[..])[x := e])
    {
      hide IsList, NoDup, HoleTable.Slots;
      procs[x] := e;
    }

    /** Entry k of the queue is left out; prev is the entry before it. */
    method Leave(prev: int, x: int, ghost k: nat)
      requires Valid() && k < |queue| && x == queue[k] && (if k == 0 then prev == NIL else prev == queue[k - 1])
      modifies this`inQueue, this`queue, swapq
      ensures Valid() && queue == old(queue)[..k] + old(queue)[k + 1..]
    {
      CutAny(swapq[..], inQueue, queue, k);
      if prev == NIL {
        inQueue := swapq[x];
      } else {
        swapq[prev] := swapq[x];
      }
      queue := queue[..k] + queue[k + 1..];
    }

    /** One process of the queue, entry k: it stays behind, or leaves. */
    method SwapInNext(worst: bool, prev: int, x: int, ghost chunks: seq<Hole>, ghost k: nat)
      returns (stays: bool, panicked: bool)
      requires Valid() && MemInv(St(), Clicks(chunks)) && k < |queue| && St().UserSlot(x)
      requires x == queue[k] && (if k == 0 then prev == NIL else prev == queue[k - 1])
      modifies this, tab, tab.link, tab.base, tab.len, procs, swapq
      ensures Valid() && queue == if stays || panicked then old(queue) else old(queue)[..k] + old(queue)[k + 1..]
      ensures !panicked ==> MemInv(St(), Clicks(chunks)) && |blocks| == |old(blocks)|
      ensures !panicked ==> SwapStep(old(St()), worst, x, stays, St())
      ensures |old(blocks)| + |chunks| < tab.link.Length ==> !panicked
    {
      hide IsList, NoDup, MemInv, Memory.SwapInOne, HoleTable.Slots;
      ghost var m := St();
      stays, panicked := false, false;
      if procs[x].queued {
        SwapInOneKeeps(m, Clicks(chunks), worst, x);
        SwapInOneBlocks(m, chunks, worst, x);
        var out;
        out, panicked := SwapInOne(worst, x, chunks);
        stays := out.NoMem?;
      }
      if !stays && !panicked { Leave(prev, x, k); }
    }

    /** swap_in */
    method SwapIn(worst: bool, ghost chunks: seq<Hole>) returns (panicked: bool)
      requires Valid() && MemInv(St(), Clicks(chunks)) && Slots(St(), queue)
      modifies this, tab, tab.link, tab.base, tab.len, procs, swapq
      ensures Valid() && (!panicked ==> (St(), queue) == Memory.SwapIn(old(St()), worst, old(queue)))
      ensures |old(blocks)| + |chunks| < tab.link.Length ==> !panicked
    {
      hide IsList, NoDup, MemInv, Memory.SwapIn, Memory.SwapInOne, HoleTable.Slots, Manager.St, SwapStep, Slots, Clicks;
      ListHead(swapq[..], inQueue, queue);
      var prev, x := NIL, inQueue;
      ghost var k := 0;
      panicked := false;
      ghost var goal := Memory.SwapIn(St(), worst, queue);
      assert queue[k..] == queue && queue[..k] + goal.1 == goal.1;
      while x != NIL
        invariant Valid() && MemInv(St(), Clicks(chunks)) && |blocks| == |old(blocks)|
        invariant k <= |queue| && x == (if k < |queue| then queue[k] else NIL)
          && (if k == 0 then prev == NIL else prev == queue[k - 1])
        invariant Slots(St(), queue[k..])
        invariant var more := Memory.SwapIn(St(), worst, queue[k..]); goal == (more.0, queue[..k] + more.1)
        decreases |queue| - k
      {
        LinkAt(swapq[..], inQueue, queue, k);
        QueueParts(queue, k);
        SlotsHead(St(), queue[k..]);
        var next := swapq[x];
        ghost var m, q := St(), queue;
        var stays;
        stays, panicked := SwapInNext(worst, prev, x, chunks, k);
        if panicked { return; }
        SwapStepDone(m, worst, q, k, stays, St());
        if stays {
          prev := x;
          k := k + 1;
        }
        x := next;
      }
      assert queue[k..] == [] && queue[..k] + [] == queue;
      SwapInEmpty(St(), worst);
    }

    /** The end of the swap-in queue. */
    method LastQueued() returns (y: int)
      requires Valid()
      ensures y == if queue == [] then NIL else queue[|queue| - 1]
      ensures queue != [] ==> 0 <= y < swapq.Length
    {
      y := inQueue;
      if y == NIL { return; }
      ghost var k := 0;
      while swapq[y] != NIL
        invariant k < |queue| && y == queue[k] && 0 <= y < swapq.Length
        decreases |queue| - k
      {
        LinkAt(swapq[..], inQueue, queue, k);
        y := swapq[y];
        k := k + 1;
      }
      LinkAt(swapq[..], inQueue, queue, k);
    }

    /** swap_inqueue */
    method SwapInqueue(x: int)
      requires Valid() && lowUser <= x < procs.Length
      modifies this`inQueue, this`queue, swapq, procs
      ensures Valid() && procs[..] == old(procs[..])[x := old(procs[x]).(queued := true)]
      ensures queue == if old(procs[x]).queued then old(queue) else Queued(old(queue), x)
    {
      hide IsList, NoDup;
      if procs[x].queued {
        assert procs[..][x := procs[x]] == procs[..];
        return;
      }
      var y := LastQueued();
      if y == NIL {
        inQueue := x;
      } else {
        swapq[y] := x;
      }
      swapq[x] := NIL;
      QueuedIsList(old(swapq[..]), swapq[..], old(inQueue), inQueue, queue, x);
      queue := Queued(queue, x);
      procs[x] := procs[x].(queued := true);
    }
  }

  lemma QueueParts(q: seq<int>, k: nat)
    requires k < |q|
    ensures q[k..][1..] == q[k + 1..] && q[..k] + [q[k]] == q[..k + 1]
    ensures var r := q[..k] + q[k + 1..]; r[..k] == q[..k] && r[k..] == q[k + 1..] && |r| == |q| - 1
    ensures forall more: seq<int> :: q[..k] + ([q[k]] + more) == q[..k + 1] + more
  {
    forall more: seq<int> ensures q[..k] + ([q[k]] + more) == q[..k + 1] + more {}
  }

  /** Leaving out entry k, through the head or through the entry before it. */
  lemma CutAny(link: seq<int>, head: int, q: seq<int>, k: nat)
    requires IsList(link, head, q) && NoDup(q) && k < |q|
    ensures 0 <= q[k] < |link| && NoDup(q[..k] + q[k + 1..])
    ensures k == 0 ==> IsList(link, link[q[0]], q[..k] + q[k + 1..])
    ensures k > 0 ==> 0 <= q[k - 1] < |link| && IsList(link[q[k - 1] := link[q[k]]], head, q[..k] + q[k + 1..])
  {
    NoDupCut(q, k);
    hide IsList, NoDup;
    LinkAt(link, head, q, k);
    if k == 0 {
      ListHead(link, head, q);
      assert q[..0] + q[1..] == q[1..];
      ListDropHead(link, head, q);
    } else {
      ListCut(link, head, q, k - 1);
    }
  }

  lemma NoDupCut(q: seq<int>, k: nat)
    requires NoDup(q) && k < |q|
    ensures NoDup(q[..k] + q[k + 1..])
  {
    var r := q[..k] + q[k + 1..];
    assert forall j :: 0 <= j < |r| ==> r[j] == q[if j < k then j else j + 1];
  }

  /** The links after swap_inqueue: the last entry points to x, and x to nothing. */
  lemma QueuedIsList(link: seq<int>, r: seq<int>, head: int, h: int, q: seq<int>, x: int)
    requires IsList(link, head, q) && NoDup(q) && 0 <= x < |link|
    requires q == [] ==> r == link[x := NIL] && h == x
    requires q != [] ==> 0 <= q[|q| - 1] < |link| && r == link[q[|q| - 1] := x][x := NIL] && h == head
    ensures IsList(r, h, Queued(q, x)) && NoDup(Queued(q, x))
  {
    if x in q {
      var i := IndexOf(q, x);
      var t := q[..i + 1];
      forall j | 0 <= j < |t| - 1 ensures r[t[j]] == t[j + 1] {
        assert t[j] != x && t[j] != q[|q| - 1];
      }
    } else {
      ListAppend(link, head, q, x);
      NoDupAppend(q, x);
    }
  }

  /** Processes 1 and 2 wait to be swapped in; 1 is killed, which clears its flag and not its link; its slot is used
      again and queued once more. Process 2 keeps SWAPIN and is on no queue. */
  method RequeueLosesOne() returns (m: Manager)
    ensures fresh(m) && m.Valid() && m.queue == [1]
    ensures m.procs.Length == 4 && m.procs[2].queued && 2 !in m.queue
  {
    hide IsList, NoDup, HoleTable.Slots, Queued, IndexOf;
    QueueOfTwo(1, 2);
    m := new Manager(4, 1, 4);
    m.SwapInqueue(1);
    m.SwapInqueue(2);
    m.ClearQueued(1);
    m.SwapInqueue(1);
  }

  lemma QueueOfTwo(x: int, y: int)
    requires x != y
    ensures Queued([], x) == [x] && Queued([x], y) == [x, y] && Queued([x, y], x) == [x]
  {
    assert IndexOf([x, y], x) == 0;
  }
}
