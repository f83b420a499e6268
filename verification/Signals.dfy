/**
 Signal bookkeeping: the counters and flags that keep a signalled process from running until the
 memory manager has dealt with every signal it was told of.
 */
module Signals {
  import opened KernelState

  ghost predicate SigOk(e: Proc, told: int) {
    && (e.pending <==> e.pendingSet != {})
    && (e.sigPending <==> e.pendcount > 0)
    && told >= 0
    && e.pendcount == |e.pendingSet| + told
  }

  function PendingSlots(p: seq<Proc>): set<int> {
    set i | 0 <= i < |p| && p[i].pending
  }

  /** sig_procs counts the processes with the PENDING flag; pendcount counts signals not yet told plus signals told and
      not yet ended. */
  ghost predicate SigInv(p: seq<Proc>, told: seq<int>, sigProcs: int) {
    && |told| == |p|
    && (forall i :: 0 <= i < |p| ==> SigOk(p[i], told[i]))
    && sigProcs == |PendingSlots(p)|
  }

  lemma UpdatePendingSlots(p: seq<Proc>, i: int, e: Proc)
    requires 0 <= i < |p|
    ensures |PendingSlots(p[i := e])| ==
      |PendingSlots(p)| - (if p[i].pending then 1 else 0) + (if e.pending then 1 else 0)
  {
    var a, b := PendingSlots(p), PendingSlots(p[i := e]);
    assert b - {i} == a - {i};
    assert b == if e.pending then (a - {i}) + {i} else a - {i};
    assert a == if p[i].pending then (a - {i}) + {i} else a - {i};
  }

  lemma UpdateSigInv(p: seq<Proc>, told: seq<int>, sigProcs: int, i: int, e: Proc, n: int)
    requires SigInv(p, told, sigProcs) && 0 <= i < |p| && SigOk(e, n)
    ensures SigInv(p[i := e], told[i := n], sigProcs - (if p[i].pending then 1 else 0) + (if e.pending then 1 else 0))
  {
    UpdatePendingSlots(p, i, e);
  }

  /** A change of the other fields of slot i. */
  lemma OtherFields(p: seq<Proc>, told: seq<int>, sigProcs: int, i: int, e: Proc)
    requires SigInv(p, told, sigProcs) && 0 <= i < |p|
    requires e.pending == p[i].pending && e.sigPending == p[i].sigPending && e.pendingSet == p[i].pendingSet
      && e.pendcount == p[i].pendcount
    ensures SigInv(p[i := e], told, sigProcs)
  {
    UpdateSigInv(p, told, sigProcs, i, e, told[i]);
    assert told[i := told[i]] == told;
  }
}
