/**
 The two placement policies: which hole each of them takes, and how they compare.
 */
module Fits {
  import opened HoleList

  /** First hole from i on that starts below the limit and is long enough; the scan stops at the limit. */
  function FirstFit(h: seq<Hole>, limit: int, n: nat, i: nat): (r: int)
    requires i <= |h|
    ensures -1 <= r < |h|
    ensures r >= 0 ==> i <= r && h[r].base < limit && h[r].len >= n && forall j :: i <= j < r ==> h[j].len < n
    decreases |h| - i
  {
    if i == |h| || h[i].base >= limit then -1
    else if h[i].len >= n then i
    else FirstFit(h, limit, n, i + 1)
  }

  /** In a sorted list the scan fails only if no hole below the limit fits. */
  lemma {:induction false} FirstFitComplete(h: seq<Hole>, limit: int, n: nat, i: nat)
    requires Canonical(h) && i <= |h| && FirstFit(h, limit, n, i) < 0
    ensures forall j :: i <= j < |h| && h[j].base < limit ==> h[j].len < n
    decreases |h| - i
  {
    if i < |h| {
      if h[i].base >= limit {
        forall j | i < j < |h| ensures h[j].base >= limit { Ordered(h, i, j); }
      } else {
        FirstFitComplete(h, limit, n, i + 1);
      }
    }
  }

  /** First hole of the swap area that is long enough. */
  function SwapFit(h: seq<Hole>, limit: int, n: nat, i: nat): (r: int)
    requires i <= |h|
    ensures -1 <= r < |h|
    ensures r >= 0 ==> i <= r && h[r].base >= limit && h[r].len >= n
    ensures r >= 0 ==> forall j :: i <= j < r && h[j].base >= limit ==> h[j].len < n
    ensures r < 0 ==> forall j :: i <= j < |h| && h[j].base >= limit ==> h[j].len < n
    decreases |h| - i
  {
    if i == |h| then -1
    else if h[i].base >= limit && h[i].len >= n then i
    else SwapFit(h, limit, n, i + 1)
  }

  /** Worst fit: the scan keeps the best hole so far, replacing it only by a strictly longer one. */
  function WorstFrom(h: seq<Hole>, n: nat, i: nat, best: int): (r: int)
    requires i <= |h| && -1 <= best < i && (best >= 0 ==> h[best].len >= n)
    ensures -1 <= r < |h| && (r >= 0 ==> h[r].len >= n)
    decreases |h| - i
  {
    if i == |h| then best
    else WorstFrom(h, n, i + 1,
                   if h[i].len >= n && h[i].len > (if best < 0 then 0 else h[best].len) then i else best)
  }

  function WorstFit(h: seq<Hole>, n: nat): (r: int)
    ensures -1 <= r < |h| && (r >= 0 ==> h[r].len >= n)
  {
    WorstFrom(h, n, 0, -1)
  }

  /** r is the lowest-addressed hole of maximal length, and long enough; or nothing fits. */
  ghost predicate IsWorst(h: seq<Hole>, n: nat, i: int, r: int)
    requires i <= |h|
  {
    if r < 0 then forall j :: 0 <= j < i ==> h[j].len < n
    else
      && r < i && h[r].len >= n
      && (forall j :: 0 <= j < i ==> h[j].len <= h[r].len)
      && (forall j :: 0 <= j < r ==> h[j].len < h[r].len)
  }

  lemma {:induction false} WorstFromIsWorst(h: seq<Hole>, n: nat, i: nat, best: int)
    requires i <= |h| && -1 <= best < i && IsWorst(h, n, i, best) && forall j :: 0 <= j < |h| ==> h[j].len > 0
    ensures IsWorst(h, n, |h|, WorstFrom(h, n, i, best))
    decreases |h| - i
  {
    if i < |h| {
      WorstFromIsWorst(h, n, i + 1,
        if h[i].len >= n && h[i].len > (if best < 0 then 0 else h[best].len) then i else best);
    }
  }

  lemma WorstFitCorrect(h: seq<Hole>, n: nat)
    requires Canonical(h)
    ensures IsWorst(h, n, |h|, WorstFit(h, n))
  {
    WorstFromIsWorst(h, n, 0, -1);
  }

  /** With every hole below the limit, the two policies succeed on the same requests. */
  lemma FitsAgree(h: seq<Hole>, limit: int, n: nat)
    requires Canonical(h) && forall j :: 0 <= j < |h| ==> h[j].base < limit
    ensures WorstFit(h, n) >= 0 <==> FirstFit(h, limit, n, 0) >= 0
  {
    WorstFitCorrect(h, n);
    if FirstFit(h, limit, n, 0) < 0 { FirstFitComplete(h, limit, n, 0); }
  }

  /** Some hole of the list has at least m clicks. */
  predicate HasHole(h: seq<Hole>, m: int) {
    exists j :: 0 <= j < |h| && h[j].len >= m
  }

  /** Whatever worst fit leaves, first fit leaves a hole at least as large. */
  lemma FirstFitLeavesMore(h: seq<Hole>, limit: int, n: nat, m: int)
    requires Canonical(h) && WorstFit(h, n) >= 0 && FirstFit(h, limit, n, 0) >= 0
    requires HasHole(Take(h, WorstFit(h, n), n), m)
    ensures HasHole(Take(h, FirstFit(h, limit, n, 0), n), m)
  {
    var w, f := WorstFit(h, n), FirstFit(h, limit, n, 0);
    WorstFitCorrect(h, n);
    if w != f {
      var g := Take(h, f, n);
      var r := Take(h, w, n);
      var j :| 0 <= j < |r| && r[j].len >= m;
      assert h[w].len >= m;
      assert g[if h[f].len == n && w > f then w - 1 else w] == h[w];
    }
  }
}
