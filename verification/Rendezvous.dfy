/**
 No missed rendezvous and no deadlock: what every entry point of the kernel keeps about flags,
 caller queues and the graph of blocked senders.
 */
module Rendezvous {
  import opened Lists
  import opened KernelState
  import opened SendGraph
  import opened Messages

  /** Slots with a fixed role; tasks and the two pseudo-tasks lie below nt. */
  ghost predicate Roles(nt: int, p: seq<Proc>) {
    && 6 <= nt && nt + 1 < |p| <= ANY
    && p[nt].priority == Server && p[nt + 1].priority == Server
    && p[nt - 1].priority == Idle && p[nt - 6].priority == Idle
    && forall i :: 0 <= i < |p| && (p[i].priority == User || p[i].priority == Unused) ==> i >= nt
  }

  /** What each process may look like. */
  ghost predicate Sound(nt: int, p: seq<Proc>, i: int)
    requires 0 <= i < |p|
  {
    var e := p[i];
    && (e.noMap || e.pending || e.sigPending || e.stopped ==> e.priority == User)
    && (e.intBlocked ==> e.priority == Task)
    && (!e.Live() ==> e.Runnable())
    && (e.sending ==> 0 <= e.sendto < |p| && p[e.sendto].priority != Unused)
    && (e.sending && e.priority == User ==> e.sendto == nt || e.sendto == nt + 1)
    // sendrec waits for the process it sends to, and never names ANY or HARDWARE
    && (e.sending && e.receiving ==> e.getfrom == e.sendto && e.getfrom != nt - 1)
  }

  ghost predicate SendsTo(p: seq<Proc>, c: int, d: int) {
    0 <= c < |p| && p[c].sending && p[c].sendto == d
  }

  /** c is on the caller queue of d, once, iff it is blocked sending to d. */
  ghost predicate Callers(p: seq<Proc>, cq: seq<seq<int>>) {
    && |cq| == |p|
    && (forall d :: 0 <= d < |p| ==> NoDup(cq[d]))
    && (forall d, c :: 0 <= d < |p| ==> (c in cq[d] <==> SendsTo(p, c, d)))
  }

  /** A process that only receives is not kept waiting by a message it would accept. */
  ghost predicate NotMissed(nt: int, p: seq<Proc>, cq: seq<seq<int>>, d: int)
    requires 0 <= d < |p| == |cq|
  {
    p[d].receiving && !p[d].sending ==>
      && (p[d].getfrom == ANY || p[d].getfrom == nt - 1 ==> !p[d].intBlocked)
      && forall j :: 0 <= j < |cq[d]| ==> !Accepts(p[d].getfrom, cq[d][j])
  }

  ghost predicate MsgInv(nt: int, p: seq<Proc>, cq: seq<seq<int>>) {
    && Roles(nt, p) && Callers(p, cq) && Acyclic(p)
    && (forall i :: 0 <= i < |p| ==> Sound(nt, p, i))
    && (forall d :: 0 <= d < |p| ==> NotMissed(nt, p, cq, d))
  }

  lemma SoundSlot(nt: int, p: seq<Proc>, cq: seq<seq<int>>, i: int)
    requires MsgInv(nt, p, cq) && 0 <= i < |p|
    ensures Sound(nt, p, i) && NotMissed(nt, p, cq, i)
  {
  }

  // ---------------------------------------------------------------- what each kind of change keeps

  /** Changes that touch neither the send half nor the wait of a process, except to end its wait. */
  ghost predicate Harmless(e: Proc, f: Proc) {
    && f.priority == e.priority && f.sending == e.sending && f.sendto == e.sendto && f.getfrom == e.getfrom
    && (f.receiving ==> e.receiving) && (f.intBlocked ==> e.intBlocked)
    && (f.noMap || f.pending || f.sigPending || f.stopped ==> e.priority == User)
    && (!e.Live() ==> f.Runnable())
  }

  lemma HarmlessKeeps(nt: int, p: seq<Proc>, cq: seq<seq<int>>, i: int, f: Proc)
    requires MsgInv(nt, p, cq) && 0 <= i < |p| && Harmless(p[i], f)
    ensures MsgInv(nt, p[i := f], cq)
  {
    var r := p[i := f];
    FewerEdgesAcyclic(p, r);
    forall j | 0 <= j < |r| ensures Sound(nt, r, j) { assert Sound(nt, p, j); }
    forall d | 0 <= d < |r| ensures NotMissed(nt, r, cq, d) { assert NotMissed(nt, p, cq, d); }
  }

  /** Joining a caller queue, when the destination would not take the message now and the send closes no cycle. */
  lemma QueueKeeps(nt: int, p: seq<Proc>, cq: seq<seq<int>>, c: int, d: int)
    requires MsgInv(nt, p, cq) && 0 <= c < |p| && 0 <= d < |p| && p[c].Live() && p[d].priority != Unused
    requires !p[c].sending && !p[c].receiving && !Reaches(p, d, c)
    requires p[c].priority == User ==> d == nt || d == nt + 1
    requires !Waits(p[d], c)
    ensures MsgInv(nt, p[c := p[c].(sending := true, sendto := d)], cq[d := cq[d] + [c]])
  {
    var r := p[c := p[c].(sending := true, sendto := d)];
    var s := cq[d := cq[d] + [c]];
    NewEdgeAcyclicIff(p, r, c, d);
    assert c !in cq[d];
    NoDupAppend(cq[d], c);
    forall j | 0 <= j < |r| ensures Sound(nt, r, j) { assert Sound(nt, p, j); }
    assert Sound(nt, p, c);
    forall x | 0 <= x < |r| ensures NotMissed(nt, r, s, x) {
      assert NotMissed(nt, p, cq, x);
    }
  }

  /** The running process c takes the message of x: x leaves the queue and waits, if at all, only for c. */
  lemma AcceptKeeps(nt: int, p: seq<Proc>, cq: seq<seq<int>>, c: int, x: int)
    requires MsgInv(nt, p, cq) && 0 <= c < |p| && x in cq[c] && !p[c].sending && !p[c].receiving
    ensures MsgInv(nt, p[x := p[x].(sending := false)], cq[c := Remove(cq[c], x)])
  {
    hide NoDup;
    var r := p[x := p[x].(sending := false)];
    var s := cq[c := Remove(cq[c], x)];
    RemoveMembers(cq[c], x);
    FewerEdgesAcyclic(p, r);
    forall j | 0 <= j < |r| ensures Sound(nt, r, j) { assert Sound(nt, p, j); }
    forall d | 0 <= d < |r| ensures NotMissed(nt, r, s, d) {
      assert NotMissed(nt, p, cq, d);
      if d == x {
        assert Sound(nt, p, x);
        assert c !in cq[x];
        assert x != c;
      }
    }
  }

  /** Blocking in mini_rec, when no acceptable message is at hand or the send half of sendrec is still pending. */
  lemma AwaitKeeps(nt: int, p: seq<Proc>, cq: seq<seq<int>>, c: int, src: int)
    requires MsgInv(nt, p, cq) && 0 <= c < |p| && p[c].Live() && !p[c].receiving
    requires if p[c].sending then src == p[c].sendto && src != nt - 1
      else (forall j :: 0 <= j < |cq[c]| ==> !Accepts(src, cq[c][j])) &&
           (p[c].intBlocked ==> src != ANY && src != nt - 1)
    ensures MsgInv(nt, p[c := p[c].(receiving := true, getfrom := src)], cq)
  {
    var r := p[c := p[c].(receiving := true, getfrom := src)];
    FewerEdgesAcyclic(p, r);
    forall j | 0 <= j < |r| ensures Sound(nt, r, j) { assert Sound(nt, p, j); }
    forall d | 0 <= d < |r| ensures NotMissed(nt, r, cq, d) { assert NotMissed(nt, p, cq, d); }
  }

  /** An interrupt that finds its task busy is remembered. */
  lemma HoldInterruptKeeps(nt: int, p: seq<Proc>, cq: seq<seq<int>>, t: int)
    requires MsgInv(nt, p, cq) && 0 <= t < |p| && p[t].priority == Task
    requires !(p[t].receiving && !p[t].sending && (p[t].getfrom == ANY || p[t].getfrom == nt - 1))
    ensures MsgInv(nt, p[t := p[t].(intBlocked := true)], cq)
  {
    var r := p[t := p[t].(intBlocked := true)];
    FewerEdgesAcyclic(p, r);
    forall j | 0 <= j < |r| ensures Sound(nt, r, j) { assert Sound(nt, p, j); }
    forall d | 0 <= d < |r| ensures NotMissed(nt, r, cq, d) { assert NotMissed(nt, p, cq, d); }
  }

  /** A slot is taken by a copy of a user that is not sending and that nobody is sending to. */
  lemma CopyKeeps(nt: int, p: seq<Proc>, cq: seq<seq<int>>, parent: int, child: int, f: Proc)
    requires MsgInv(nt, p, cq) && 0 <= parent < |p| && 0 <= child < |p|
    requires p[parent].priority == User && !p[parent].sending && cq[parent] == [] && p[child].priority == Unused
    requires f.priority == User && !f.sending && f.receiving == p[parent].receiving && f.getfrom == p[parent].getfrom
    requires f.intBlocked == p[parent].intBlocked
    ensures MsgInv(nt, p[child := f], cq[child := cq[parent]])
  {
    var r := p[child := f];
    var s := cq[child := cq[parent]];
    assert Sound(nt, p, child) && Sound(nt, p, parent);
    FewerEdgesAcyclic(p, r);
    if cq[child] != [] {
      var x := cq[child][0];
      assert x in cq[child];
      SoundSlot(nt, p, cq, x);
      assert false;
    }
    assert cq[child] == [];
    assert s == cq;
    forall j | 0 <= j < |r| ensures Sound(nt, r, j) { assert Sound(nt, p, j); }
    forall d | 0 <= d < |r| ensures NotMissed(nt, r, s, d) { assert NotMissed(nt, p, cq, d); }
  }

  /** A user with an empty caller queue disappears, leaving the queue it was sending on. */
  function Unlink(p: seq<Proc>, cq: seq<seq<int>>, n: int): seq<seq<int>>
    requires 0 <= n < |p| == |cq| && (p[n].sending ==> 0 <= p[n].sendto < |p|)
  {
    if p[n].sending then cq[p[n].sendto := Remove(cq[p[n].sendto], n)] else cq
  }

  lemma DiscardKeeps(nt: int, p: seq<Proc>, cq: seq<seq<int>>, n: int, f: Proc)
    requires MsgInv(nt, p, cq) && 0 <= n < |p| && p[n].priority == User && cq[n] == []
    requires f.priority == Unused && f.Runnable() && !f.intBlocked
    ensures p[n].sending ==> 0 <= p[n].sendto < |p|
    ensures MsgInv(nt, p[n := f], Unlink(p, cq, n))
    ensures forall d :: 0 <= d < |p| ==> n !in Unlink(p, cq, n)[d]
  {
    assert Sound(nt, p, n);
    var r := p[n := f];
    var s := Unlink(p, cq, n);
    if p[n].sending { RemoveMembers(cq[p[n].sendto], n); }
    FewerEdgesAcyclic(p, r);
    forall j | 0 <= j < |r| ensures Sound(nt, r, j) {
      assert Sound(nt, p, j);
      assert SendsTo(p, j, n) <==> j in cq[n];
    }
    forall d | 0 <= d < |r| ensures NotMissed(nt, r, s, d) {
      assert NotMissed(nt, p, cq, d);
    }
  }
}
