/**
 The memory manager's allocation state as a value: the hole list, the user processes that can be swapped out,
 and the ledger of outstanding blocks that every operation keeps.
 */
module Memory {
  import opened HoleList
  import opened Fits

  /** The fields of a process slot that swapping looks at. */
  datatype MProc = MProc(
    live: bool,      // in use, with a data segment of its own
    waits: bool,     // PAUSED, WAITING or SIGSUSPENDED
    avoid: bool,     // TRACED or REPLY
    onSwap: bool,    // ONSWAP
    queued: bool,    // SWAPIN
    phys: int,       // where its data segment starts
    size: nat)       // clicks from there to the end of its stack
  {
    predicate Eligible() { waits && !avoid && !onSwap }

    /** It holds a block of the ledger. */
    predicate Owns() { live && size > 0 }
  }

  /** The ledger entry of a block; an empty block has none. */
  function Entry(base: int, n: nat): set<Hole> {
    if n == 0 then {} else {Hole(base, n)}
  }

  /** blocks is the ledger of what has been allocated and not yet freed. */
  datatype Mem = Mem(holes: seq<Hole>, procs: seq<MProc>, lowUser: nat, outswap: int, swapBase: int, blocks: set<Hole>)
  {
    predicate Wf() {
      lowUser <= outswap < |procs|
    }

    predicate UserSlot(i: int) { lowUser <= i < |procs| }
  }

  /** An allocation either fails or returns the base of a block. */
  datatype Outcome = Block(base: int) | NoMem

  function Next(m: Mem, i: int): (r: int)
    requires m.Wf() && m.UserSlot(i)
    ensures m.UserSlot(r)
  {
    if i + 1 == |m.procs| then m.lowUser else i + 1
  }

  predicate CanSwap(m: Mem, i: int)
    requires m.UserSlot(i)
  {
    m.procs[i].Eligible() && SwapFit(m.holes, m.swapBase, m.procs[i].size, 0) >= 0
  }

  /** Steps of the circular scan from slot i back to outswap. */
  function Distance(m: Mem, i: int): nat
    requires m.Wf() && m.UserSlot(i)
  {
    if i < m.outswap then m.outswap - i else |m.procs| - m.lowUser - (i - m.outswap)
  }

  /** The do-while scan of swap_out after slot i: the first process that can be swapped, or -1 back at outswap. */
  function Victim(m: Mem, i: int): (r: int)
    requires m.Wf() && m.UserSlot(i)
    ensures r == -1 || (m.UserSlot(r) && CanSwap(m, r))
    decreases Distance(m, i)
  {
    var x := Next(m, i);
    if CanSwap(m, x) then x
    else if x == m.outswap then -1
    else Victim(m, x)
  }

  /** Whether the scan after slot i comes by slot x before it stops. */
  predicate Ahead(m: Mem, i: int, x: int) {
    if i < m.outswap then i < x <= m.outswap else x > i || x <= m.outswap
  }

  lemma {:induction false} VictimComplete(m: Mem, i: int)
    requires m.Wf() && m.UserSlot(i) && Victim(m, i) == -1
    ensures forall x :: m.UserSlot(x) && Ahead(m, i, x) ==> !CanSwap(m, x)
    decreases Distance(m, i)
  {
    var x := Next(m, i);
    if x != m.outswap { VictimComplete(m, x); }
  }

  /** Move the block of process x to swap hole j. */
  function SwapTo(m: Mem, x: int, j: nat): (r: Mem)
    requires m.UserSlot(x) && j < |m.holes| && m.procs[x].size <= m.holes[j].len
  {
    var e := m.procs[x];
    m.(holes := Free(Take(m.holes, j, e.size), e.phys, e.size),
       procs := m.procs[x := e.(phys := m.holes[j].base, onSwap := true)],
       outswap := x,
       blocks := m.blocks - Entry(e.phys, e.size) + Entry(m.holes[j].base, e.size))
  }

  /** swap_out: false and no change, or true after one process has been moved to swap. */
  function SwapOut(m: Mem): (r: (bool, Mem))
    requires m.Wf()
    ensures r.1.Wf()
  {
    var x := Victim(m, m.outswap);
    if x < 0 then (false, m)
    else (true, SwapTo(m, x, SwapFit(m.holes, m.swapBase, m.procs[x].size, 0)))
  }

  /** User slots whose process is not on swap. */
  function InCore(procs: seq<MProc>, i: nat): nat
    requires i <= |procs|
    decreases |procs| - i
  {
    if i == |procs| then 0 else (if procs[i].onSwap then 0 else 1) + InCore(procs, i + 1)
  }

  lemma {:induction false} InCoreUpdate(procs: seq<MProc>, i: nat, x: int, e: MProc)
    requires i <= |procs| && 0 <= x < |procs|
    ensures InCore(procs[x := e], i) == InCore(procs, i) +
      (if x < i || e.onSwap == procs[x].onSwap then 0 else if e.onSwap then -1 else 1)
    decreases |procs| - i
  {
    if i < |procs| { InCoreUpdate(procs, i + 1, x, e); }
  }

  /** Each successful swap_out leaves one process fewer in core: the measure of the retry loop. */
  lemma SwapOutProgress(m: Mem)
    requires m.Wf() && SwapOut(m).0
    ensures InCore(SwapOut(m).1.procs, m.lowUser) < InCore(m.procs, m.lowUser)
    ensures SwapOut(m).1.lowUser == m.lowUser
  {
    var x := Victim(m, m.outswap);
    InCoreUpdate(m.procs, m.lowUser, x, SwapOut(m).1.procs[x]);
  }

  function TakeBlock(m: Mem, i: nat, n: nat): (r: (Outcome, Mem))
    requires i < |m.holes| && n <= m.holes[i].len
  {
    (Block(m.holes[i].base), m.(holes := Take(m.holes, i, n), blocks := m.blocks + Entry(m.holes[i].base, n)))
  }

  /** The first-fit loop of alloc_mem, swapping processes out until the request fits. */
  function AllocFirst(m: Mem, n: nat): (r: (Outcome, Mem))
    requires m.Wf()
    ensures r.1.Wf() && r.1.lowUser == m.lowUser && |r.1.procs| == |m.procs|
    decreases InCore(m.procs, m.lowUser)
  {
    var i := FirstFit(m.holes, m.swapBase, n, 0);
    if i >= 0 then TakeBlock(m, i, n)
    else if !SwapOut(m).0 then (NoMem, m)
    else
      SwapOutProgress(m);
      AllocFirst(SwapOut(m).1, n)
  }

  /** alloc_mem */
  function Alloc(m: Mem, worst: bool, n: nat): (r: (Outcome, Mem))
    requires m.Wf()
    ensures r.1.Wf() && r.1.lowUser == m.lowUser && |r.1.procs| == |m.procs|
  {
    if !worst then AllocFirst(m, n)
    else
      var i := WorstFit(m.holes, n);
      if i >= 0 then TakeBlock(m, i, n) else (NoMem, m)
  }

  /** Free a block of the ledger. */
  function Release(m: Mem, base: int, n: nat): (r: Mem) {
    m.(holes := Free(m.holes, base, n), blocks := m.blocks - Entry(base, n))
  }

  /** One process of the swap-in queue: allocate core, move, free the swap block. */
  function SwapInOne(m: Mem, worst: bool, x: int): (r: (Outcome, Mem))
    requires m.Wf() && m.UserSlot(x)
    ensures r.1.Wf() && r.1.lowUser == m.lowUser && |r.1.procs| == |m.procs|
  {
    var e := m.procs[x];
    var (out, a) := Alloc(m, worst, e.size);
    if out.NoMem? then (out, a)
    else
      var f := a.procs[x].(phys := out.base, onSwap := false, queued := false);
      (out, Release(a.(procs := a.procs[x := f]), a.procs[x].phys, e.size))
  }

  ghost predicate Slots(m: Mem, q: seq<int>) {
    forall k :: 0 <= k < |q| ==> m.UserSlot(q[k])
  }

  /** swap_in: walk the queue; killed processes and processes swapped in leave it. */
  function SwapIn(m: Mem, worst: bool, q: seq<int>): (r: (Mem, seq<int>))
    requires m.Wf() && Slots(m, q)
    decreases |q|
  {
    if q == [] then (m, [])
    else
      assert m.UserSlot(q[0]);
      if !m.procs[q[0]].queued then SwapIn(m, worst, q[1..])
      else
        var one := SwapInOne(m, worst, q[0]);
        var more := SwapIn(one.1, worst, q[1..]);
        (more.0, (if one.0.NoMem? then [q[0]] else []) + more.1)
  }
}
