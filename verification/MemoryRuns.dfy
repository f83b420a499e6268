/**
 The memory manager as a state machine: from mem_init on, every sequence of allocations, frees, swaps and process
 exits keeps the ledger, and never fills the hole table while blocks and chunks are fewer than its slots.
 */
module MemoryRuns {
  import opened HoleList
  import opened Memory
  import opened Ledger

  /** chunks: the chunks of physical memory, and the swap area once it is on. */
  datatype Sys = Sys(m: Mem, chunks: seq<Hole>, swapOn: bool)

  datatype Step =
    | Request(worst: bool, n: nat)                       // alloc_mem for something that is no data segment
    | Return(b: Hole)                                    // free_mem of a block no process holds
    | Grow(x: int, worst: bool, n: nat)                  // alloc_mem of a new data segment (fork, exec)
    | Exit(x: int)                                       // the process gives its segment back
    | Flags(x: int, waits: bool, avoid: bool, queued: bool)
    | SwapInStep(worst: bool, q: seq<int>)
    | SwapOn(n: nat)                                     // n clicks, after the clamp to swap_maxsize

  /** What the callers of the allocator guarantee. */
  ghost predicate Enabled(s: Sys, e: Step) {
    match e
    case Return(b) => b in s.m.blocks && forall i :: Owner(s.m, i) ==> s.m.procs[i].phys != b.base
    case Grow(x, w, n) => s.m.UserSlot(x) && !s.m.procs[x].Eligible()
    case Exit(x) => s.m.UserSlot(x) && s.m.procs[x].live
    case Flags(x, w, a, q) => s.m.UserSlot(x) && (w || q ==> s.m.procs[x].live)
    case SwapInStep(w, q) => Slots(s.m, q)
    case _ => true
  }

  function GrowSlot(m: Mem, x: int, worst: bool, n: nat): (r: Mem)
    requires m.Wf() && m.UserSlot(x)
    ensures r.Wf()
  {
    var a := Alloc(m, worst, n);
    if a.0.NoMem? then a.1
    else a.1.(procs := a.1.procs[x := a.1.procs[x].(live := true, phys := a.0.base, size := n, onSwap := false)])
  }

  function ExitSlot(m: Mem, x: int): (r: Mem)
    requires m.Wf() && m.UserSlot(x)
    ensures r.Wf()
  {
    var e := m.procs[x];
    Release(m.(procs := m.procs[x := e.(live := false, waits := false, queued := false, onSwap := false)]),
            e.phys, e.size)
  }

  function SetFlags(m: Mem, x: int, waits: bool, avoid: bool, queued: bool): (r: Mem)
    requires m.Wf() && m.UserSlot(x)
    ensures r.Wf()
  {
    m.(procs := m.procs[x := m.procs[x].(waits := waits, avoid := avoid, queued := queued)])
  }

  function Apply(s: Sys, e: Step): Sys
    requires s.m.Wf() && Enabled(s, e)
  {
    match e
    case Request(w, n) => s.(m := Alloc(s.m, w, n).1)
    case Return(b) => s.(m := Release(s.m, b.base, if b.len < 0 then 0 else b.len))
    case Grow(x, w, n) => s.(m := GrowSlot(s.m, x, w, n))
    case Exit(x) => s.(m := ExitSlot(s.m, x))
    case Flags(x, w, a, q) => s.(m := SetFlags(s.m, x, w, a, q))
    case SwapInStep(w, q) => s.(m := SwapIn(s.m, w, q).0)
    case SwapOn(n) =>
      if s.swapOn || n == 0 then s.(swapOn := true)
      else Sys(s.m.(holes := Free(s.m.holes, s.m.swapBase, n)), s.chunks + [Hole(s.m.swapBase, n)], true)
  }

  /** Free clicks and blocks partition the chunks; before swap is on, all memory lies below swap_base. */
  ghost predicate SysInv(s: Sys) {
    && MemInv(s.m, Clicks(s.chunks))
    && s.m.swapBase - 1 !in Clicks(s.chunks)
    && (!s.swapOn ==> forall c :: c in Clicks(s.chunks) ==> c < s.m.swapBase)
  }

  // ---------------------------------------------------------------- every step

  /** Slot x gets new fields: its block, if it has one, must be its own. */
  lemma SlotKeeps(m: Mem, memory: set<int>, x: int, f: MProc, d: Mem)
    requires MemInv(m, memory) && m.UserSlot(x) && d == m.(procs := m.procs[x := f])
    requires f.Owns() ==>
      Hole(f.phys, f.size) in m.blocks && forall i :: Owner(m, i) && i != x ==> m.procs[i].phys != f.phys
    requires f.Eligible() || f.queued ==> f.live
    ensures MemInv(d, memory)
    ensures Separate(m, memory) && (f.Owns() ==> (f.onSwap <==> f.phys >= m.swapBase)) ==> Separate(d, memory)
  {
    assert forall i :: i != x ==> (Owner(d, i) <==> Owner(m, i));
    assert forall i :: m.UserSlot(i) && i != x ==> d.procs[i] == m.procs[i];
  }

  lemma ReleaseBoth(m: Mem, memory: set<int>, base: int, n: nat)
    requires MemInv(m, memory) && Entry(base, n) <= m.blocks
    requires n > 0 ==> forall i :: Owner(m, i) ==> m.procs[i].phys != base
    ensures MemInv(Release(m, base, n), memory)
    ensures Separate(m, memory) ==> Separate(Release(m, base, n), memory)
  {
    ReleaseKeeps(m, memory, base, n);
    assert forall i :: Owner(Release(m, base, n), i) <==> Owner(m, i);
  }

  lemma AllocBoth(m: Mem, memory: set<int>, worst: bool, n: nat)
    requires MemInv(m, memory)
    ensures MemInv(Alloc(m, worst, n).1, memory) && Alloc(m, worst, n).1.swapBase == m.swapBase
    ensures Separate(m, memory) ==> Separate(Alloc(m, worst, n).1, memory)
  {
    AllocKeeps(m, memory, worst, n);
    AllocFrame(m, worst, n);
    if Separate(m, memory) {
      if worst { WorstSeparate(m, memory, n); } else { AllocFirstSeparate(m, memory, n); }
    }
  }

  /** A block that no process holds does not matter, wherever it lies. */
  lemma WorstSeparate(m: Mem, memory: set<int>, n: nat)
    requires m.Wf() && Separate(m, memory)
    ensures Separate(Alloc(m, true, n).1, memory)
  {
    var r := Alloc(m, true, n).1;
    assert forall i :: Owner(r, i) <==> Owner(m, i);
  }

  lemma GrowKeeps(m: Mem, memory: set<int>, x: int, worst: bool, n: nat)
    requires MemInv(m, memory) && m.UserSlot(x) && !m.procs[x].Eligible()
    ensures MemInv(GrowSlot(m, x, worst, n), memory)
    ensures Separate(m, memory) ==> (Separate(GrowSlot(m, x, worst, n), memory) <==> TakesCore(m, worst, n))
    ensures GrowSlot(m, x, worst, n).swapBase == m.swapBase
  {
    AllocBoth(m, memory, worst, n);
    var a := Alloc(m, worst, n);
    if a.0.Block? {
      AllocNew(m, memory, worst, n);
      var f := a.1.procs[x].(live := true, phys := a.0.base, size := n, onSwap := false);
      SlotKeeps(a.1, memory, x, f, GrowSlot(m, x, worst, n));
      if n > 0 { assert Owner(GrowSlot(m, x, worst, n), x); }
    }
    if n > 0 { TakesCoreIff(m, memory, worst, n); }
  }

  lemma ExitKeeps(m: Mem, memory: set<int>, x: int)
    requires MemInv(m, memory) && m.UserSlot(x) && m.procs[x].live
    ensures MemInv(ExitSlot(m, x), memory)
    ensures Separate(m, memory) ==> Separate(ExitSlot(m, x), memory)
  {
    var e := m.procs[x];
    var f := e.(live := false, waits := false, queued := false, onSwap := false);
    var d := m.(procs := m.procs[x := f]);
    SlotKeeps(m, memory, x, f, d);
    if e.size > 0 { assert Owner(m, x); }
    assert forall i :: Owner(d, i) ==> Owner(m, i) && i != x && d.procs[i] == m.procs[i];
    ReleaseBoth(d, memory, e.phys, e.size);
  }

  lemma SetFlagsKeeps(m: Mem, memory: set<int>, x: int, waits: bool, avoid: bool, queued: bool)
    requires MemInv(m, memory) && m.UserSlot(x) && (waits || queued ==> m.procs[x].live)
    ensures MemInv(SetFlags(m, x, waits, avoid, queued), memory)
    ensures Separate(m, memory) ==> Separate(SetFlags(m, x, waits, avoid, queued), memory)
  {
    if m.procs[x].Owns() { assert Owner(m, x); }
    SlotKeeps(m, memory, x, m.procs[x].(waits := waits, avoid := avoid, queued := queued),
      SetFlags(m, x, waits, avoid, queued));
  }

  /** The process moves to its new block and the old one is freed. */
  lemma MoveKeeps(a: Mem, memory: set<int>, x: int, base: int)
    requires MemInv(a, memory) && a.UserSlot(x) && a.procs[x].live && NewBlock(a, base, a.procs[x].size)
    ensures var f := a.procs[x].(phys := base, onSwap := false, queued := false);
      var r := Release(a.(procs := a.procs[x := f]), a.procs[x].phys, a.procs[x].size);
      MemInv(r, memory) && (Separate(a, memory) && (a.procs[x].size > 0 ==> base < a.swapBase) ==> Separate(r, memory))
  {
    var f := a.procs[x].(phys := base, onSwap := false, queued := false);
    var d := a.(procs := a.procs[x := f]);
    SlotKeeps(a, memory, x, f, d);
    if f.size > 0 {
      assert Owner(a, x);
      forall i | Owner(d, i) ensures d.procs[i].phys != a.procs[x].phys { assert Owner(a, i); }
    }
    ReleaseBoth(d, memory, a.procs[x].phys, f.size);
  }

  lemma SwapInOneKeeps(m: Mem, memory: set<int>, worst: bool, x: int)
    requires MemInv(m, memory) && m.UserSlot(x) && m.procs[x].queued
    ensures MemInv(SwapInOne(m, worst, x).1, memory)
    ensures Separate(m, memory) && TakesCore(m, worst, m.procs[x].size) ==> Separate(SwapInOne(m, worst, x).1, memory)
    ensures SwapInOne(m, worst, x).1.swapBase == m.swapBase
  {
    var n := m.procs[x].size;
    var a := Alloc(m, worst, n);
    AllocBoth(m, memory, worst, n);
    AllocFrame(m, worst, n);
    assert Placed(m.procs[x], a.1.procs[x]);
    if a.0.Block? {
      AllocNew(m, memory, worst, n);
      if n > 0 { TakesCoreIff(m, memory, worst, n); }
      MoveKeeps(a.1, memory, x, a.0.base);
    }
  }

  /** Every process that the walk of swap_in brings back goes to core. */
  ghost predicate WalkTakesCore(m: Mem, worst: bool, q: seq<int>)
    requires m.Wf() && Slots(m, q)
    decreases |q|
  {
    if q == [] then true
    else
      assert m.UserSlot(q[0]);
      if !m.procs[q[0]].queued then WalkTakesCore(m, worst, q[1..])
      else TakesCore(m, worst, m.procs[q[0]].size) && WalkTakesCore(SwapInOne(m, worst, q[0]).1, worst, q[1..])
  }

  lemma {:induction false} SwapInKeeps(m: Mem, memory: set<int>, worst: bool, q: seq<int>)
    requires MemInv(m, memory) && Slots(m, q)
    ensures MemInv(SwapIn(m, worst, q).0, memory)
    ensures Separate(m, memory) && WalkTakesCore(m, worst, q) ==> Separate(SwapIn(m, worst, q).0, memory)
    ensures SwapIn(m, worst, q).0.swapBase == m.swapBase
    decreases |q|
  {
    if q != [] {
      assert m.UserSlot(q[0]);
      if m.procs[q[0]].queued {
        SwapInOneKeeps(m, memory, worst, q[0]);
        SwapInKeeps(SwapInOne(m, worst, q[0]).1, memory, worst, q[1..]);
      } else {
        SwapInKeeps(m, memory, worst, q[1..]);
      }
    }
  }

  /** Memory that was no memory before becomes one more chunk and is free. */
  lemma GainPartition(holes: seq<Hole>, blocks: set<Hole>, memory: set<int>, base: int, n: nat, g: set<int>)
    requires Partition(holes, blocks, memory) && Span(base, n) !! memory && g == memory + Span(base, n)
    ensures Partition(Free(holes, base, n), blocks, g)
  {
    assert forall c :: c in Clicks(holes) ==> c in memory;
    FreeKeeps(holes, base, n);
    assert forall c :: Taken(blocks, c) ==> c in memory;
  }

  lemma SwapOnKeeps(m: Mem, memory: set<int>, n: nat, g: set<int>, r: Mem)
    requires MemInv(m, memory) && m.swapBase - 1 !in memory && forall c :: c in memory ==> c < m.swapBase
    requires r == m.(holes := Free(m.holes, m.swapBase, n)) && g == memory + Span(m.swapBase, n)
    ensures MemInv(r, g)
  {
    GainPartition(m.holes, m.blocks, memory, m.swapBase, n, g);
    assert forall i :: Owner(r, i) <==> Owner(m, i);
  }

  lemma SwapOnSeparate(m: Mem, memory: set<int>, n: nat, g: set<int>, r: Mem)
    requires m.Wf() && m.swapBase - 1 !in memory
    requires r == m.(holes := Free(m.holes, m.swapBase, n)) && g == memory + Span(m.swapBase, n)
    ensures r.swapBase - 1 !in g
    ensures Separate(m, memory) ==> Separate(r, g)
  {
    assert forall i :: Owner(r, i) <==> Owner(m, i);
  }

  ghost predicate SysSeparate(s: Sys) { Separate(s.m, Clicks(s.chunks)) }

  lemma OneMore(chunks: seq<Hole>, base: int, n: nat)
    ensures Clicks(chunks + [Hole(base, n)]) == Clicks(chunks) + Span(base, n)
  {
    ClicksConcat(chunks, [Hole(base, n)]);
    assert [Hole(base, n)][1..] == [];
  }

  lemma SwapOnMore(s: Sys, n: nat, t: Sys)
    requires SysInv(s) && !s.swapOn && t.m == s.m.(holes := Free(s.m.holes, s.m.swapBase, n))
    requires t.chunks == s.chunks + [Hole(s.m.swapBase, n)] && t.swapOn
    ensures SysInv(t) && (SysSeparate(s) ==> SysSeparate(t))
  {
    hide Clicks, Free, Separate, Partition, Owned;
    var memory, g := Clicks(s.chunks), Clicks(t.chunks);
    assert g == memory + Span(s.m.swapBase, n) by { OneMore(s.chunks, s.m.swapBase, n); }
    hide Span;
    SwapOnKeeps(s.m, memory, n, g, t.m);
    SwapOnSeparate(s.m, memory, n, g, t.m);
  }

  lemma SwapOnStep(s: Sys, n: nat, t: Sys)
    requires SysInv(s) && t == Apply(s, SwapOn(n))
    ensures SysInv(t) && (SysSeparate(s) ==> SysSeparate(t))
  {
    hide MemInv, Separate, Clicks, Free;
    if !s.swapOn && n > 0 { SwapOnMore(s, n, t); }
  }

  /** Whatever the step allocates for a process lies in core. Blocks that no process holds may lie anywhere. */
  ghost predicate KeepsCore(s: Sys, e: Step)
    requires s.m.Wf() && Enabled(s, e)
  {
    match e
    case Grow(x, w, n) => TakesCore(s.m, w, n)
    case SwapInStep(w, q) => WalkTakesCore(s.m, w, q)
    case _ => true
  }

  /** Steps that leave the chunks alone. */
  lemma MemStep(s: Sys, e: Step)
    requires SysInv(s) && Enabled(s, e) && !e.SwapOn?
    ensures MemInv(Apply(s, e).m, Clicks(s.chunks)) && Apply(s, e).m.swapBase == s.m.swapBase
    ensures SysSeparate(s) && KeepsCore(s, e) ==> Separate(Apply(s, e).m, Clicks(s.chunks))
  {
    var memory := Clicks(s.chunks);
    match e
    case Request(w, n) => AllocBoth(s.m, memory, w, n);
    case Return(b) => ReleaseBoth(s.m, memory, b.base, b.len);
    case Grow(x, w, n) => GrowKeeps(s.m, memory, x, w, n);
    case Exit(x) => ExitKeeps(s.m, memory, x);
    case Flags(x, w, a, q) => SetFlagsKeeps(s.m, memory, x, w, a, q);
    case SwapInStep(w, q) => SwapInKeeps(s.m, memory, w, q);
  }

  /** t follows from s by one step. */
  ghost predicate Follows(s: Sys, e: Step, t: Sys) {
    s.m.Wf() && Enabled(s, e) && t == Apply(s, e)
  }

  lemma SameChunks(s: Sys, t: Sys)
    requires SysInv(s) && MemInv(t.m, Clicks(s.chunks)) && t.m.swapBase == s.m.swapBase
    requires t.chunks == s.chunks && t.swapOn == s.swapOn
    ensures SysInv(t)
    ensures SysSeparate(t) <==> Separate(t.m, Clicks(s.chunks))
  {
    hide MemInv, Separate, Clicks;
  }

  lemma StepKeeps(s: Sys, e: Step, t: Sys)
    requires SysInv(s) && Follows(s, e, t)
    ensures SysInv(t)
    ensures SysSeparate(s) && KeepsCore(s, e) ==> SysSeparate(t)
  {
    hide MemInv, Separate, Clicks, Alloc, GrowSlot, ExitSlot, SwapIn, Release, Free, KeepsCore;
    if e.SwapOn? {
      SwapOnStep(s, e.n, t);
    } else {
      MemStep(s, e);
      SameChunks(s, t);
    }
  }

  // ---------------------------------------------------------------- mem_init and runs

  /** The loop of mem_init over the chunks the kernel reports. */
  function FreeAll(chunks: seq<Hole>): (r: seq<Hole>) {
    if chunks == [] then [] else Free(FreeAll(Init(chunks)), Last(chunks).base, Size(Last(chunks)))
  }

  function Init(s: seq<Hole>): seq<Hole> requires s != [] { s[..|s| - 1] }
  function Last(s: seq<Hole>): Hole requires s != [] { s[|s| - 1] }
  function Size(b: Hole): nat { if b.len < 0 then 0 else b.len }

  /** swap_base before the final increment: the end of the highest chunk. */
  function TopOf(chunks: seq<Hole>): (r: int)
    ensures r >= 0 && forall i :: 0 <= i < |chunks| ==> chunks[i].End() <= r
    ensures r == 0 || exists i :: 0 <= i < |chunks| && chunks[i].End() == r
  {
    if chunks == [] then 0
    else
      var t := TopOf(Init(chunks));
      assert forall i :: 0 <= i < |chunks| - 1 ==> chunks[i] == Init(chunks)[i];
      if t < Last(chunks).End() then Last(chunks).End() else t
  }

  ghost predicate Disjoint(chunks: seq<Hole>) {
    forall i, j, c :: 0 <= i < j < |chunks| ==> !(Covers(chunks[i], c) && Covers(chunks[j], c))
  }

  ghost predicate Dead(procs: seq<MProc>) {
    forall i :: 0 <= i < |procs| ==> !procs[i].live && !procs[i].waits && !procs[i].queued
  }

  function Boot(chunks: seq<Hole>, procs: seq<MProc>, lowUser: nat): Sys
    requires lowUser < |procs|
  {
    Sys(Mem(FreeAll(chunks), procs, lowUser, lowUser, TopOf(chunks) + 1, {}), chunks, false)
  }

  lemma {:induction false} FreeAllKeeps(chunks: seq<Hole>)
    requires Disjoint(chunks)
    ensures Partition(FreeAll(chunks), {}, Clicks(chunks))
  {
    if chunks != [] {
      var b := Last(chunks);
      FreeAllKeeps(Init(chunks));
      assert chunks == Init(chunks) + [b];
      ClicksConcat(Init(chunks), [b]);
      assert Clicks([b]) == Span(b.base, b.len) == Span(b.base, Size(b));
      forall c | c in Span(b.base, Size(b)) ensures c !in Clicks(Init(chunks)) {
        assert Covers(b, c);
        ClicksIn(Init(chunks), c);
        forall i | 0 <= i < |chunks| - 1 ensures !Covers(Init(chunks)[i], c) { assert chunks[i] == Init(chunks)[i]; }
      }
      GainPartition(FreeAll(Init(chunks)), {}, Clicks(Init(chunks)), b.base, Size(b), Clicks(chunks));
    }
  }

  lemma BelowTop(chunks: seq<Hole>)
    ensures forall c :: c in Clicks(chunks) ==> c < TopOf(chunks)
  {
    forall c | c in Clicks(chunks) ensures c < TopOf(chunks) { ClicksIn(chunks, c); }
  }

  lemma BootInv(chunks: seq<Hole>, procs: seq<MProc>, lowUser: nat)
    requires Disjoint(chunks) && lowUser < |procs| && Dead(procs)
    ensures SysInv(Boot(chunks, procs, lowUser)) && SysSeparate(Boot(chunks, procs, lowUser))
  {
    var s := Boot(chunks, procs, lowUser);
    FreeAllKeeps(chunks);
    BelowTop(chunks);
    assert forall i :: !Owner(s.m, i);
  }

  ghost predicate Run(run: seq<Sys>, steps: seq<Step>) {
    && |run| == |steps| + 1
    && forall i :: 0 <= i < |steps| ==> Follows(run[i], steps[i], run[i + 1])
  }

  lemma RunStep(run: seq<Sys>, steps: seq<Step>, i: nat)
    requires Run(run, steps) && i < |steps|
    ensures Follows(run[i], steps[i], run[i + 1])
  {
  }

  /** In every state of every run the ledger is exact. */
  lemma {:induction false} RunKeeps(run: seq<Sys>, steps: seq<Step>, i: nat)
    requires Run(run, steps) && i < |run| && SysInv(run[0])
    ensures SysInv(run[i])
  {
    if i > 0 {
      RunKeeps(run, steps, i - 1);
      RunStep(run, steps, i - 1);
      StepKeeps(run[i - 1], steps[i - 1], run[i]);
    }
  }

  /** The first i steps give processes core only. */
  ghost predicate CoreOnly(run: seq<Sys>, steps: seq<Step>, i: nat) {
    forall k :: 0 <= k < i && k < |steps| && k < |run| ==>
      run[k].m.Wf() && Enabled(run[k], steps[k]) && KeepsCore(run[k], steps[k])
  }

  /** As long as no process has been given swap space as core, processes on swap and in core are apart. */
  lemma {:induction false} RunSeparate(run: seq<Sys>, steps: seq<Step>, i: nat)
    requires Run(run, steps) && i < |run| && SysInv(run[0]) && SysSeparate(run[0]) && CoreOnly(run, steps, i)
    ensures SysSeparate(run[i])
  {
    hide SysInv, SysSeparate, KeepsCore, Apply;
    if i > 0 {
      RunSeparate(run, steps, i - 1);
      RunKeeps(run, steps, i - 1);
      RunStep(run, steps, i - 1);
      StepKeeps(run[i - 1], steps[i - 1], run[i]);
    }
  }

  lemma NoSwapHoles(m: Mem, memory: set<int>)
    requires MemInv(m, memory) && forall c :: c in memory ==> c < m.swapBase
    ensures CoreCovers(m.holes, m.swapBase)
  {
    forall j | 0 <= j < |m.holes| ensures m.holes[j].base < m.swapBase {
      ClicksIn(m.holes, m.holes[j].base);
    }
  }

  lemma {:induction false} WalkWithoutSwap(m: Mem, memory: set<int>, worst: bool, q: seq<int>)
    requires MemInv(m, memory) && Slots(m, q) && forall c :: c in memory ==> c < m.swapBase
    ensures WalkTakesCore(m, worst, q)
    decreases |q|
  {
    if q != [] {
      assert m.UserSlot(q[0]);
      NoSwapHoles(m, memory);
      if m.procs[q[0]].queued {
        SwapInOneKeeps(m, memory, worst, q[0]);
        WalkWithoutSwap(SwapInOne(m, worst, q[0]).1, memory, worst, q[1..]);
      } else {
        WalkWithoutSwap(m, memory, worst, q[1..]);
      }
    }
  }

  predicate ByWorstFit(e: Step) {
    match e
    case Grow(x, w, n) => w
    case SwapInStep(w, q) => w
    case _ => false
  }

  /** First fit always, and worst fit while swap is off, give core. */
  lemma CoreUnlessWorstWithSwap(s: Sys, e: Step)
    requires SysInv(s) && Enabled(s, e) && (s.swapOn ==> !ByWorstFit(e))
    ensures KeepsCore(s, e)
  {
    if !s.swapOn {
      NoSwapHoles(s.m, Clicks(s.chunks));
      if e.SwapInStep? { WalkWithoutSwap(s.m, Clicks(s.chunks), e.worst, e.q); }
    } else if e.SwapInStep? {
      FirstFitWalk(s.m, e.q);
    }
  }

  lemma {:induction false} FirstFitWalk(m: Mem, q: seq<int>)
    requires m.Wf() && Slots(m, q)
    ensures WalkTakesCore(m, false, q)
    decreases |q|
  {
    if q != [] {
      assert m.UserSlot(q[0]);
      FirstFitWalk(if m.procs[q[0]].queued then SwapInOne(m, false, q[0]).1 else m, q[1..]);
    }
  }

  /** With swap on, a worst-fit allocation for a process keeps core and swap apart exactly when no swap hole is longer
      than all core holes, or nothing fits. */
  lemma WorstGrowSeparateIff(s: Sys, x: int, n: nat)
    requires SysInv(s) && SysSeparate(s) && Enabled(s, Grow(x, true, n)) && n > 0
    ensures SysSeparate(Apply(s, Grow(x, true, n))) <==>
      CoreCovers(s.m.holes, s.m.swapBase) || forall j :: 0 <= j < |s.m.holes| ==> s.m.holes[j].len < n
  {
    GrowKeeps(s.m, Clicks(s.chunks), x, true, n);
  }

  /** Process x is in core as far as its flags say, and its block is not. */
  predicate Strayed(m: Mem, x: int) {
    Owner(m, x) && !m.procs[x].onSwap && !m.procs[x].queued && m.procs[x].phys >= m.swapBase
  }

  /** A process that swap_in has brought back to the wrong place stays there. */
  lemma {:induction false} StrayedStays(m: Mem, q: seq<int>, x: int)
    requires m.Wf() && Slots(m, q) && Strayed(m, x)
    ensures Strayed(SwapIn(m, true, q).0, x)
    decreases |q|
  {
    hide Take, Free;
    if q != [] {
      assert m.UserSlot(q[0]);
      if m.procs[q[0]].queued {
        var t := SwapInOne(m, true, q[0]).1;
        assert t.procs[x] == m.procs[x];
        StrayedStays(t, q[1..], x);
      } else {
        StrayedStays(m, q[1..], x);
      }
    }
  }

  /** What swap_in allocates out of core strays. */
  lemma SwapInStrays(m: Mem, memory: set<int>, x: int)
    requires MemInv(m, memory) && m.UserSlot(x) && m.procs[x].queued && !TakesCore(m, true, m.procs[x].size)
    ensures Strayed(SwapInOne(m, true, x).1, x)
  {
    hide Take, Free, CoreCovers;
    TakesCoreIff(m, memory, true, m.procs[x].size);
  }

  /** The first process of the queue, and the walk over the rest. */
  lemma WalkUnfolds(m: Mem, worst: bool, q: seq<int>)
    requires m.Wf() && Slots(m, q) && q != []
    ensures m.UserSlot(q[0]) && Slots(m, q[1..])
    ensures var t := if m.procs[q[0]].queued then SwapInOne(m, worst, q[0]).1 else m;
      && t.Wf() && Slots(t, q[1..]) && SwapIn(m, worst, q).0 == SwapIn(t, worst, q[1..]).0
      && (WalkTakesCore(m, worst, q) <==>
            (m.procs[q[0]].queued ==> TakesCore(m, worst, m.procs[q[0]].size)) && WalkTakesCore(t, worst, q[1..]))
  {
    hide SwapInOne, TakesCore;
    assert m.UserSlot(q[0]);
  }

  /** swap_in keeps core and swap apart exactly when every process it brings back goes to core. */
  lemma {:induction false} SwapInSeparateIff(m: Mem, memory: set<int>, worst: bool, q: seq<int>)
    requires MemInv(m, memory) && Separate(m, memory) && Slots(m, q)
    ensures Separate(SwapIn(m, worst, q).0, memory) <==> WalkTakesCore(m, worst, q)
    decreases |q|
  {
    assert m.Wf();
    if !worst {
      hide MemInv, Separate;
      FirstFitWalk(m, q);
      SwapInKeeps(m, memory, worst, q);
    } else if q != [] {
      WalkUnfolds(m, worst, q);
      hide MemInv, Separate, SwapInOne, TakesCore, SwapIn, WalkTakesCore, Slots;
      if !m.procs[q[0]].queued {
        SwapInSeparateIff(m, memory, worst, q[1..]);
      } else {
        var t := SwapInOne(m, worst, q[0]).1;
        SwapInOneKeeps(m, memory, worst, q[0]);
        if TakesCore(m, worst, m.procs[q[0]].size) {
          SwapInSeparateIff(t, memory, worst, q[1..]);
        } else {
          SwapInStrays(m, memory, q[0]);
          StrayedStays(t, q[1..], q[0]);
          StrayedApart(SwapIn(t, worst, q[1..]).0, memory, q[0]);
        }
      }
    }
  }

  lemma StrayedApart(m: Mem, memory: set<int>, x: int)
    requires Strayed(m, x)
    ensures !Separate(m, memory)
  {
  }

  /** For every step that allocates for processes: it keeps core and swap apart exactly when it gives them core. */
  lemma AllocatingSeparateIff(s: Sys, e: Step)
    requires SysInv(s) && SysSeparate(s) && Enabled(s, e) && (e.Grow? || e.SwapInStep?)
    ensures SysSeparate(Apply(s, e)) <==> KeepsCore(s, e)
  {
    hide MemInv, Alloc, GrowSlot, SwapIn;
    match e
    case Grow(x, w, n) => GrowKeeps(s.m, Clicks(s.chunks), x, w, n);
    case SwapInStep(w, q) => SwapInSeparateIff(s.m, Clicks(s.chunks), w, q);
    case _ =>
  }

  // ---------------------------------------------------------------- swap space as core, from mem_init on

  lemma AppendHole(h: seq<Hole>, base: int, n: nat)
    requires Canonical(h) && n > 0 && forall c :: c in Clicks(h) ==> c < base - 1
    ensures Free(h, base, n) == h + [Hole(base, n)]
  {
    forall i | 0 <= i < |h| ensures h[i].End() < base { ClicksIn(h, h[i].End() - 1); }
    assert Canonical(h + [Hole(base, n)]);
    assert Span(base, n) !! Clicks(h);
    hide Clicks, Canonical, Free, Span;
    OneMore(h, base, n);
    FreeKeeps(h, base, n);
    CanonicalUnique(Free(h, base, n), h + [Hole(base, n)]);
  }

  /** The swap area becomes one hole behind all others. */
  lemma SwapAreaHole(s: Sys, n: nat)
    requires SysInv(s) && !s.swapOn && n > 0
    ensures Apply(s, SwapOn(n)).m == s.m.(holes := s.m.holes + [Hole(s.m.swapBase, n)])
    ensures forall i :: 0 <= i < |s.m.holes| ==> s.m.holes[i].base < s.m.swapBase
  {
    hide Free;
    forall c | c in Clicks(s.m.holes) ensures c < s.m.swapBase - 1 {
      assert c in Clicks(s.chunks);
    }
    AppendHole(s.m.holes, s.m.swapBase, n);
    forall i | 0 <= i < |s.m.holes| ensures s.m.holes[i].base < s.m.swapBase {
      ClicksIn(s.m.holes, s.m.holes[i].base);
    }
  }

  /** A swap area of n clicks is covered by core when some core hole is as long. */
  lemma AreaCovered(h: seq<Hole>, base: int, n: nat, g: seq<Hole>)
    requires g == h + [Hole(base, n)] && forall i :: 0 <= i < |h| ==> h[i].base < base
    ensures CoreCovers(g, base) <==> exists i :: 0 <= i < |h| && h[i].len >= n
  {
    assert g[|h|].len == n && g[|h|].base >= base;
    if i :| 0 <= i < |h| && h[i].len >= n {
      assert g[i].len >= n && g[i].base < base;
      assert CoreHas(g, base, n);
    }
    if CoreHas(g, base, n) {
      var i :| 0 <= i < |g| && g[i].base < base && g[i].len >= n;
      assert h[i].len >= n;
    }
  }

  /** After mem_init and swap_on, the first data segment that worst fit places keeps core and swap apart exactly when
      some hole of core is at least as long as the swap area. */
  lemma FirstWorstGrowIff(chunks: seq<Hole>, procs: seq<MProc>, lowUser: nat, x: int, n: nat, k: nat)
      returns (run: seq<Sys>, steps: seq<Step>)
    requires Disjoint(chunks) && lowUser <= x < |procs| && Dead(procs) && 0 < k <= n
    ensures steps == [SwapOn(n), Grow(x, true, k)] && Run(run, steps) && run[0] == Boot(chunks, procs, lowUser)
    ensures SysSeparate(run[2]) <==> exists i :: 0 <= i < |run[0].m.holes| && run[0].m.holes[i].len >= n
  {
    var s := Boot(chunks, procs, lowUser);
    assert !s.swapOn && s.m.UserSlot(x) && !s.m.procs[x].Eligible();
    hide SysInv, SysSeparate, Boot, Follows, Disjoint, Dead;
    BootInv(chunks, procs, lowUser);
    var t, u := WorstGrow(s, x, n, k);
    run, steps := [s, t, u], [SwapOn(n), Grow(x, true, k)];
    TwoSteps(run, steps);
  }

  lemma TwoSteps(run: seq<Sys>, steps: seq<Step>)
    requires |run| == 3 && |steps| == 2 && Follows(run[0], steps[0], run[1]) && Follows(run[1], steps[1], run[2])
    ensures Run(run, steps)
  {
    hide Follows;
  }

  /** One click of core and two of swap: worst fit puts the first process into swap space. */
  lemma WorstLeavesCoreFromStart() returns (run: seq<Sys>, steps: seq<Step>)
    ensures steps == [SwapOn(2), Grow(0, true, 1)] && Run(run, steps)
    ensures run[0] == Boot([Hole(0, 1)], [MProc(false, false, false, false, false, 0, 0)], 0) && !SysSeparate(run[2])
  {
    var chunks := [Hole(0, 1)];
    assert Init(chunks) == [] && FreeAll(chunks) == Free([], 0, 1) == chunks;
    run, steps := FirstWorstGrowIff(chunks, [MProc(false, false, false, false, false, 0, 0)], 0, 0, 2, 1);
  }

  lemma SwapAreaOn(s: Sys, n: nat, t: Sys)
    requires SysInv(s) && !s.swapOn && n > 0 && t == Apply(s, SwapOn(n))
    ensures t.m == s.m.(holes := t.m.holes) && t.m.holes != [] && t.m.holes[|t.m.holes| - 1].len == n
    ensures CoreCovers(t.m.holes, t.m.swapBase) <==> exists i :: 0 <= i < |s.m.holes| && s.m.holes[i].len >= n
  {
    SwapAreaHole(s, n);
    hide SysInv, Apply, CoreCovers;
    AreaCovered(s.m.holes, s.m.swapBase, n, t.m.holes);
  }

  lemma WorstGrow(s: Sys, x: int, n: nat, k: nat) returns (t: Sys, u: Sys)
    requires SysInv(s) && SysSeparate(s) && !s.swapOn && s.m.UserSlot(x) && !s.m.procs[x].Eligible() && 0 < k <= n
    ensures Follows(s, SwapOn(n), t) && Follows(t, Grow(x, true, k), u)
    ensures SysSeparate(u) <==> exists i :: 0 <= i < |s.m.holes| && s.m.holes[i].len >= n
  {
    assert s.m.Wf();
    hide SysInv, SysSeparate, Apply, CoreCovers;
    t := Apply(s, SwapOn(n));
    SwapAreaOn(s, n, t);
    StepKeeps(s, SwapOn(n), t);
    u := Apply(t, Grow(x, true, k));
    WorstGrowSeparateIff(t, x, k);
  }

  /** While blocks and chunks are fewer than the table has slots, a slot is free, so free_mem cannot panic. */
  lemma NeverFull(run: seq<Sys>, steps: seq<Step>, i: nat, slots: nat)
    requires Run(run, steps) && i < |run| && SysInv(run[0])
    requires |run[i].m.blocks| + |run[i].chunks| < slots
    ensures |run[i].m.holes| < slots
  {
    RunKeeps(run, steps, i);
    HoleBound(run[i].m.holes, run[i].m.blocks, run[i].chunks);
  }

  /** The set of outstanding blocks fixes the hole list: two histories that agree on it agree on the list. */
  lemma LedgerFixesList(s: Sys, t: Sys)
    requires SysInv(s) && SysInv(t) && s.m.blocks == t.m.blocks && Clicks(s.chunks) == Clicks(t.chunks)
    ensures s.m.holes == t.m.holes
  {
    assert forall c :: c in Clicks(s.m.holes) <==> c in Clicks(s.chunks) && !Taken(s.m.blocks, c);
    assert forall c :: c in Clicks(t.m.holes) <==> c in Clicks(t.chunks) && !Taken(t.m.blocks, c);
    CanonicalUnique(s.m.holes, t.m.holes);
  }
}
