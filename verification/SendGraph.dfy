/**
 The graph of blocked senders: an edge runs from every SENDING process to its p_sendto.
 mini_send refuses a send that would close a cycle, and its check is a walk that stops only because
 there is no cycle yet.
 */
module SendGraph {
  import opened KernelState

  /** The walk from a reaches a process that is not sending within k hops. */
  ghost predicate Ends(p: seq<Proc>, a: int, k: nat)
    decreases k
  {
    0 <= a < |p| && (p[a].sending ==> k > 0 && Ends(p, p[a].sendto, k - 1))
  }

  ghost predicate Stops(p: seq<Proc>, a: int) {
    exists k: nat :: Ends(p, a, k)
  }

  /** From every process the walk ends: no cycle, and no edge out of the table. */
  ghost predicate Acyclic(p: seq<Proc>) {
    forall a :: 0 <= a < |p| ==> Stops(p, a)
  }

  /** k hops along the edges lead from a to b. */
  ghost predicate Path(p: seq<Proc>, a: int, b: int, k: nat)
    decreases k
  {
    0 <= a < |p| && if k == 0 then a == b else p[a].sending && Path(p, p[a].sendto, b, k - 1)
  }

  ghost predicate Reaches(p: seq<Proc>, a: int, b: int) {
    exists k: nat :: Path(p, a, b, k)
  }

  lemma {:induction false} EndsMore(p: seq<Proc>, a: int, k: nat, m: nat)
    requires Ends(p, a, k) && k <= m
    ensures Ends(p, a, m)
    decreases k
  {
    if p[a].sending {
      EndsMore(p, p[a].sendto, k - 1, m - 1);
    }
  }

  lemma {:induction false} PathComposes(p: seq<Proc>, a: int, b: int, c: int, k: nat, m: nat)
    requires Path(p, a, b, k) && Path(p, b, c, m)
    ensures Path(p, a, c, k + m)
    decreases k
  {
    if k > 0 {
      PathComposes(p, p[a].sendto, b, c, k - 1, m);
    }
  }

  /** A walk that ends has at most k hops, so a path inside it is no longer than that. */
  lemma {:induction false} PathWithinEnds(p: seq<Proc>, a: int, b: int, k: nat, m: nat)
    requires Ends(p, a, k) && Path(p, a, b, m)
    ensures m <= k && Ends(p, b, k - m)
    decreases m
  {
    if m > 0 {
      PathWithinEnds(p, p[a].sendto, b, k - 1, m - 1);
    }
  }

  lemma {:induction false} CyclePumps(p: seq<Proc>, a: int, m: nat, n: nat)
    requires Path(p, a, a, m)
    ensures Path(p, a, a, m * n)
    decreases n
  {
    if n > 0 {
      CyclePumps(p, a, m, n - 1);
      PathComposes(p, a, a, a, m, m * (n - 1));
      assert m + m * (n - 1) == m * n;
    }
  }

  /** Acyclic in the usual sense: no process waits for itself through one or more sends. */
  lemma AcyclicHasNoCycle(p: seq<Proc>, a: int, m: nat)
    requires Acyclic(p) && m > 0
    ensures !Path(p, a, a, m)
  {
    if Path(p, a, a, m) {
      assert Stops(p, a);
      var k: nat :| Ends(p, a, k);
      CyclePumps(p, a, m, k + 1);
      assert m * (k + 1) >= k + 1 by { assert (m - 1) * (k + 1) >= 0; }
      PathWithinEnds(p, a, a, k, m * (k + 1));
      assert false;
    }
  }

  // ------------------------------------------------------------ changes to the graph

  /** Every edge of r is an edge of p. */
  ghost predicate FewerEdges(p: seq<Proc>, r: seq<Proc>) {
    |p| == |r| && forall i :: 0 <= i < |p| ==> r[i].sending ==> p[i].sending && r[i].sendto == p[i].sendto
  }

  lemma {:induction false} FewerEdgesEnds(p: seq<Proc>, r: seq<Proc>, a: int, k: nat)
    requires FewerEdges(p, r) && Ends(p, a, k)
    ensures Ends(r, a, k)
    decreases k
  {
    if r[a].sending {
      FewerEdgesEnds(p, r, p[a].sendto, k - 1);
    }
  }

  lemma FewerEdgesAcyclic(p: seq<Proc>, r: seq<Proc>)
    requires FewerEdges(p, r) && Acyclic(p)
    ensures Acyclic(r)
  {
    forall a | 0 <= a < |r| ensures Stops(r, a) {
      assert Stops(p, a);
      var k: nat :| Ends(p, a, k);
      FewerEdgesEnds(p, r, a, k);
    }
  }

  /** r is p with one more edge, from c to d. */
  ghost predicate AddsEdge(p: seq<Proc>, r: seq<Proc>, c: int, d: int) {
    && |p| == |r| && 0 <= c < |p| && 0 <= d < |p| && !p[c].sending && r[c].sending && r[c].sendto == d
    && forall i :: 0 <= i < |p| && i != c ==> r[i].sending == p[i].sending && r[i].sendto == p[i].sendto
  }

  /** A walk that avoids c is not changed by the new edge. */
  lemma {:induction false} EndsAvoiding(p: seq<Proc>, r: seq<Proc>, c: int, d: int, a: int, k: nat)
    requires AddsEdge(p, r, c, d) && Ends(p, a, k) && !Reaches(p, a, c)
    ensures Ends(r, a, k)
    decreases k
  {
    assert a != c by { if a == c { assert Path(p, a, c, 0); } }
    if p[a].sending {
      forall m: nat ensures !Path(p, p[a].sendto, c, m) {
        assert Path(p, a, c, m + 1) == Path(p, p[a].sendto, c, m);
      }
      EndsAvoiding(p, r, c, d, p[a].sendto, k - 1);
    }
  }

  /** Any walk either avoids c or continues from d. */
  lemma {:induction false} EndsThrough(p: seq<Proc>, r: seq<Proc>, c: int, d: int, a: int, k: nat, kd: nat)
    requires AddsEdge(p, r, c, d) && Ends(p, a, k) && Ends(r, d, kd)
    ensures Ends(r, a, k + kd + 1)
    decreases k
  {
    if a == c {
      EndsMore(r, d, kd, k + kd);
    } else if p[a].sending {
      EndsThrough(p, r, c, d, p[a].sendto, k - 1, kd);
    }
  }

  lemma {:induction false} PathKept(p: seq<Proc>, r: seq<Proc>, c: int, d: int, a: int, k: nat)
    requires AddsEdge(p, r, c, d) && Path(p, a, c, k)
    ensures Path(r, a, c, k)
    decreases k
  {
    if k > 0 {
      PathKept(p, r, c, d, p[a].sendto, k - 1);
    }
  }

  /** The exact condition under which a new edge keeps the graph acyclic. */
  lemma NewEdgeAcyclicIff(p: seq<Proc>, r: seq<Proc>, c: int, d: int)
    requires Acyclic(p) && AddsEdge(p, r, c, d)
    ensures Acyclic(r) <==> !Reaches(p, d, c)
  {
    if Reaches(p, d, c) {
      var k: nat :| Path(p, d, c, k);
      PathKept(p, r, c, d, d, k);
      assert Path(r, c, c, k + 1);
      if Acyclic(r) {
        AcyclicHasNoCycle(r, c, k + 1);
      }
    } else {
      assert Stops(p, d);
      var kd: nat :| Ends(p, d, kd);
      EndsAvoiding(p, r, c, d, d, kd);
      forall a | 0 <= a < |r| ensures Stops(r, a) {
        assert Stops(p, a);
        var k: nat :| Ends(p, a, k);
        EndsThrough(p, r, c, d, a, k, kd);
      }
    }
  }
}
