/**
 The hole list of the memory allocator as a value: sorted, non-empty, non-touching holes, which the set of
 free clicks determines completely.
 */
module HoleList {

  datatype Hole = Hole(base: int, len: int)
  {
    function End(): int { base + len }
  }

  function Span(base: int, len: int): (r: set<int>)
    ensures forall c :: c in r <==> base <= c < base + len
    decreases if len < 0 then 0 else len
  {
    if len <= 0 then {} else Span(base, len - 1) + {base + len - 1}
  }

  /** The clicks of all holes of a list. */
  function Clicks(h: seq<Hole>): set<int> {
    if h == [] then {} else Span(h[0].base, h[0].len) + Clicks(h[1..])
  }

  /** Strictly sorted, with no empty hole and a gap between any two. */
  ghost predicate Canonical(h: seq<Hole>) {
    && (forall i :: 0 <= i < |h| ==> h[i].len > 0)
    && (forall i :: 0 <= i < |h| - 1 ==> h[i].End() < h[i + 1].base)
  }

  lemma {:induction false} ClicksIn(h: seq<Hole>, c: int)
    ensures c in Clicks(h) <==> exists i :: 0 <= i < |h| && h[i].base <= c < h[i].End()
  {
    if h != [] {
      ClicksIn(h[1..], c);
      if exists i :: 0 <= i < |h| && h[i].base <= c < h[i].End() {
        var i :| 0 <= i < |h| && h[i].base <= c < h[i].End();
        if i > 0 { assert h[1..][i - 1] == h[i]; }
      }
    }
  }

  lemma {:induction false} ClicksConcat(a: seq<Hole>, b: seq<Hole>)
    ensures Clicks(a + b) == Clicks(a) + Clicks(b)
  {
    if a == [] {
      assert a + b == b;
    } else {
      assert (a + b)[1..] == a[1..] + b;
      ClicksConcat(a[1..], b);
    }
  }

  lemma ClicksAround(a: seq<Hole>, m: Hole, b: seq<Hole>)
    ensures Clicks(a + [m] + b) == Clicks(a) + Span(m.base, m.len) + Clicks(b)
  {
    ClicksConcat(a + [m], b);
    ClicksConcat(a, [m]);
    assert [m][1..] == [];
    assert Clicks([m]) == Span(m.base, m.len);
  }

  lemma ClicksSplit(h: seq<Hole>, i: nat)
    requires i < |h|
    ensures Clicks(h) == Clicks(h[..i]) + Span(h[i].base, h[i].len) + Clicks(h[i + 1..])
  {
    hide Clicks, Span;
    assert h == h[..i] + [h[i]] + h[i + 1..];
    ClicksAround(h[..i], h[i], h[i + 1..]);
  }

  lemma {:induction false} Ordered(h: seq<Hole>, i: nat, j: nat)
    requires Canonical(h) && i < j < |h|
    ensures h[i].End() < h[j].base
    decreases j - i
  {
    if i + 1 < j { Ordered(h, i, j - 1); }
  }

  /** In a canonical list all clicks lie at or behind the first base, and the click after the first hole is not free. */
  lemma FirstHole(h: seq<Hole>)
    requires Canonical(h) && h != []
    ensures h[0].base in Clicks(h)
    ensures forall c :: c in Clicks(h) ==> c >= h[0].base
    ensures forall c :: c in Clicks(h[1..]) ==> c > h[0].End()
    ensures h[0].End() !in Clicks(h)
  {
    forall c | c in Clicks(h[1..]) ensures c > h[0].End() {
      ClicksIn(h[1..], c);
      var i :| 0 <= i < |h[1..]| && h[1..][i].base <= c < h[1..][i].End();
      Ordered(h, 0, i + 1);
    }
  }

  lemma TailCanonical(h: seq<Hole>)
    requires Canonical(h) && h != []
    ensures Canonical(h[1..])
  {
  }

  /** The set of free clicks determines the list. */
  lemma {:induction false} CanonicalUnique(a: seq<Hole>, b: seq<Hole>)
    requires Canonical(a) && Canonical(b) && Clicks(a) == Clicks(b)
    ensures a == b
  {
    if a == [] || b == [] {
      if a != [] { FirstHole(a); }
      if b != [] { FirstHole(b); }
    } else {
      FirstHole(a);
      FirstHole(b);
      assert a[0].base == b[0].base;
      var x, y := a[0], b[0];
      assert x.End() in Span(y.base, y.len) <==> y.base <= x.End() < y.End();
      assert y.End() in Span(x.base, x.len) <==> x.base <= y.End() < x.End();
      assert a[0] == b[0];
      TailCanonical(a);
      TailCanonical(b);
      assert Clicks(a[1..]) == Clicks(a) - Span(a[0].base, a[0].len);
      assert Clicks(b[1..]) == Clicks(b) - Span(b[0].base, b[0].len);
      CanonicalUnique(a[1..], b[1..]);
      assert a == [a[0]] + a[1..] && b == [b[0]] + b[1..];
    }
  }

  // ---------------------------------------------------------------- taking clicks

  /** Bite n clicks off the front of hole i; a hole that is used up disappears. */
  function Take(h: seq<Hole>, i: nat, n: nat): (r: seq<Hole>)
    requires i < |h| && n <= h[i].len
  {
    if h[i].len == n then h[..i] + h[i + 1..] else h[i := Hole(h[i].base + n, h[i].len - n)]
  }

  lemma TakeCanonical(h: seq<Hole>, i: nat, n: nat)
    requires Canonical(h) && i < |h| && n <= h[i].len
    ensures Canonical(Take(h, i, n))
  {
    var r := Take(h, i, n);
    if h[i].len == n {
      forall j | 0 <= j < |r| ensures r[j] == if j < i then h[j] else h[j + 1] {}
      if 0 < i < |h| - 1 { Ordered(h, i - 1, i + 1); }
    }
  }

  /** The clicks of one hole are no other hole's. */
  lemma OthersApart(h: seq<Hole>, i: nat)
    requires Canonical(h) && i < |h|
    ensures Span(h[i].base, h[i].len) !! Clicks(h[..i])
    ensures Span(h[i].base, h[i].len) !! Clicks(h[i + 1..])
  {
    forall c | c in Span(h[i].base, h[i].len) ensures c !in Clicks(h[..i]) && c !in Clicks(h[i + 1..]) {
      ClicksIn(h[..i], c);
      ClicksIn(h[i + 1..], c);
      forall j | 0 <= j < i ensures c >= h[j].End() { Ordered(h, j, i); }
      var t := h[i + 1..];
      forall j | 0 <= j < |t| ensures c < t[j].base { Ordered(h, i, i + 1 + j); }
    }
  }

  lemma TakeWhole(h: seq<Hole>, i: nat)
    requires Canonical(h) && i < |h|
    ensures Clicks(h[..i] + h[i + 1..]) == Clicks(h) - Span(h[i].base, h[i].len)
  {
    ClicksSplit(h, i);
    OthersApart(h, i);
    ClicksConcat(h[..i], h[i + 1..]);
  }

  lemma SpanLess(base: int, len: nat, n: nat)
    requires n <= len
    ensures Span(base + n, len - n) == Span(base, len) - Span(base, n)
  {
  }

  lemma SetAround(h: seq<Hole>, i: nat, m: Hole, g: seq<Hole>)
    requires i < |h| && g == h[i := m]
    ensures |g| == |h| && g[i] == m && g[..i] == h[..i] && g[i + 1..] == h[i + 1..]
  {
  }

  lemma TakePart(h: seq<Hole>, i: nat, n: nat)
    requires Canonical(h) && i < |h| && n <= h[i].len
    ensures Clicks(h[i := Hole(h[i].base + n, h[i].len - n)]) == Clicks(h) - Span(h[i].base, n)
  {
    hide Clicks, Canonical, Span;
    var m := Hole(h[i].base + n, h[i].len - n);
    var g := h[i := m];
    ClicksSplit(h, i);
    OthersApart(h, i);
    SetAround(h, i, m, g);
    ClicksSplit(g, i);
    SpanLess(h[i].base, h[i].len, n);
  }

  lemma TakeKeeps(h: seq<Hole>, i: nat, n: nat)
    requires Canonical(h) && i < |h| && n <= h[i].len
    ensures Canonical(Take(h, i, n))
    ensures Span(h[i].base, n) <= Clicks(h)
    ensures Clicks(Take(h, i, n)) == Clicks(h) - Span(h[i].base, n)
  {
    TakeCanonical(h, i, n);
    ClicksSplit(h, i);
    if h[i].len == n { TakeWhole(h, i); } else { TakePart(h, i, n); }
  }

  // ---------------------------------------------------------------- returning clicks

  /** Where free_mem links a block in: before the first hole that does not start below it. */
  function Place(h: seq<Hole>, base: int): (j: nat)
    ensures j <= |h| && (forall i :: 0 <= i < j ==> h[i].base < base) && (j < |h| ==> base <= h[j].base)
  {
    if h == [] || base <= h[0].base then 0 else Place(h[1..], base) + 1
  }

  predicate Touch(h: seq<Hole>, k: int) {
    0 <= k < |h| - 1 && h[k].End() == h[k + 1].base
  }

  /** Hole k absorbs its successor when they touch. */
  function Absorb(h: seq<Hole>, k: nat): (r: seq<Hole>) {
    if Touch(h, k) then h[..k] + [Hole(h[k].base, h[k].len + h[k + 1].len)] + h[k + 2..] else h
  }

  /** merge: two attempts, the second one hole further unless the first succeeded. */
  function Merge(h: seq<Hole>, k: nat): (r: seq<Hole>) {
    Absorb(Absorb(h, k), if Touch(h, k) then k else k + 1)
  }

  function Insert(h: seq<Hole>, j: nat, b: Hole): (r: seq<Hole>)
    requires j <= |h|
  {
    h[..j] + [b] + h[j..]
  }

  /** free_mem */
  function Free(h: seq<Hole>, base: int, n: nat): (r: seq<Hole>) {
    if n == 0 then h
    else
      var j := Place(h, base);
      Merge(Insert(h, j, Hole(base, n)), if j == 0 then 0 else j - 1)
  }

  /** Sorted, with no empty hole; neighbours may touch only at positions k and k + 1. */
  ghost predicate NearlyCanonical(h: seq<Hole>, k: int) {
    && (forall i :: 0 <= i < |h| ==> h[i].len > 0)
    && (forall i :: 0 <= i < |h| - 1 ==> h[i].End() <= h[i + 1].base)
    && (forall i :: 0 <= i < |h| - 1 && i != k && i != k + 1 ==> h[i].End() < h[i + 1].base)
  }

  lemma AbsorbAround(h: seq<Hole>, k: nat, g: seq<Hole>)
    requires Touch(h, k) && g == Absorb(h, k)
    ensures |g| == |h| - 1 && g[..k] == h[..k] && g[k + 1..] == h[k + 1..][1..]
    ensures g[k] == Hole(h[k].base, h[k].len + h[k + 1].len)
  {
  }

  lemma SpanJoin(base: int, n: nat, m: nat)
    ensures Span(base, n + m) == Span(base, n) + Span(base + n, m)
  {
  }

  lemma Regroup(a: set<int>, x: set<int>, y: set<int>, b: set<int>)
    ensures a + x + (y + b) == a + (x + y) + b
    ensures a + x + b == a + b + x
  {
  }

  lemma ClicksHead(h: seq<Hole>, k: nat)
    requires k < |h|
    ensures Clicks(h[k..]) == Span(h[k].base, h[k].len) + Clicks(h[k..][1..])
  {
  }

  lemma AbsorbClicks(h: seq<Hole>, k: nat)
    requires forall i :: 0 <= i < |h| ==> h[i].len > 0
    ensures Clicks(Absorb(h, k)) == Clicks(h)
  {
    if Touch(h, k) {
      var g := Absorb(h, k);
      AbsorbAround(h, k, g);
      ClicksSplit(h, k);
      ClicksSplit(g, k);
      ClicksHead(h, k + 1);
      SpanJoin(h[k].base, h[k].len, h[k + 1].len);
      Regroup(Clicks(h[..k]), Span(h[k].base, h[k].len), Span(h[k + 1].base, h[k + 1].len), Clicks(g[k + 1..]));
    }
  }

  lemma AbsorbAt(h: seq<Hole>, k: nat)
    requires Touch(h, k)
    ensures |Absorb(h, k)| == |h| - 1 && Absorb(h, k)[k] == Hole(h[k].base, h[k].len + h[k + 1].len)
    ensures forall i :: 0 <= i < k ==> Absorb(h, k)[i] == h[i]
    ensures forall i :: k < i < |h| - 1 ==> Absorb(h, k)[i] == h[i + 1]
  {
  }

  /** Touching neighbours only at position k. */
  ghost predicate TouchesOnlyAt(h: seq<Hole>, k: int) {
    && (forall i :: 0 <= i < |h| ==> h[i].len > 0)
    && (forall i :: 0 <= i < |h| - 1 ==> if i == k then h[i].End() <= h[i + 1].base else h[i].End() < h[i + 1].base)
  }

  lemma AbsorbShape(h: seq<Hole>, k: nat)
    requires NearlyCanonical(h, k)
    ensures TouchesOnlyAt(Absorb(h, k), if Touch(h, k) then k else k + 1)
  {
    if Touch(h, k) { AbsorbAt(h, k); }
  }

  lemma AbsorbLast(h: seq<Hole>, k: nat)
    requires TouchesOnlyAt(h, k)
    ensures Canonical(Absorb(h, k))
  {
    if Touch(h, k) { AbsorbAt(h, k); }
  }

  lemma MergeKeeps(h: seq<Hole>, k: nat)
    requires NearlyCanonical(h, k)
    ensures Canonical(Merge(h, k)) && Clicks(Merge(h, k)) == Clicks(h)
  {
    AbsorbClicks(h, k);
    AbsorbShape(h, k);
    var m := if Touch(h, k) then k else k + 1;
    AbsorbClicks(Absorb(h, k), m);
    AbsorbLast(Absorb(h, k), m);
  }

  lemma InsertAround(h: seq<Hole>, j: nat, b: Hole, g: seq<Hole>)
    requires j <= |h| && g == Insert(h, j, b)
    ensures j < |g| && g[j] == b && g[..j] == h[..j] && g[j + 1..] == h[j..] && h == h[..j] + h[j..]
  {
  }

  lemma InsertClicks(h: seq<Hole>, j: nat, b: Hole)
    requires j <= |h|
    ensures Clicks(Insert(h, j, b)) == Clicks(h) + Span(b.base, b.len)
  {
    var g := Insert(h, j, b);
    InsertAround(h, j, b, g);
    ClicksSplit(g, j);
    ClicksConcat(h[..j], h[j..]);
    Regroup(Clicks(h[..j]), Span(b.base, b.len), {}, Clicks(h[j..]));
  }

  /** A block of taken clicks fits between its neighbours. */
  lemma FitsBetween(h: seq<Hole>, base: int, n: nat)
    requires Canonical(h) && n > 0 && Span(base, n) !! Clicks(h)
    ensures forall i :: 0 <= i < Place(h, base) ==> h[i].End() <= base
    ensures Place(h, base) < |h| ==> base + n <= h[Place(h, base)].base
  {
    var j := Place(h, base);
    assert base in Span(base, n);
    ClicksIn(h, base);
    if j < |h| { ClicksIn(h, h[j].base); }
  }

  lemma InsertAt(h: seq<Hole>, j: nat, b: Hole)
    requires j <= |h|
    ensures |Insert(h, j, b)| == |h| + 1
    ensures forall i :: 0 <= i < |h| + 1 ==>
      Insert(h, j, b)[i] == if i < j then h[i] else if i == j then b else h[i - 1]
  {
  }

  /** A block between its neighbours, at position j. */
  lemma InsertedShape(h: seq<Hole>, j: nat, b: Hole, g: seq<Hole>)
    requires Canonical(h) && j <= |h| && b.len > 0 && g == Insert(h, j, b)
    requires (j > 0 ==> h[j - 1].End() <= b.base) && (j < |h| ==> b.End() <= h[j].base)
    ensures NearlyCanonical(g, if j == 0 then 0 else j - 1)
  {
    InsertAt(h, j, b);
    hide Insert;
    assert g[j] == b && (j > 0 ==> g[j - 1] == h[j - 1]) && (j < |h| ==> g[j + 1] == h[j]);
    forall i | 0 <= i < |g| - 1 && i != j - 1 && i != j ensures g[i].End() < g[i + 1].base {
      assert if i < j then g[i] == h[i] && g[i + 1] == h[i + 1] else g[i] == h[i - 1] && g[i + 1] == h[i];
    }
  }

  lemma InsertShape(h: seq<Hole>, base: int, n: nat)
    requires Canonical(h) && n > 0 && Span(base, n) !! Clicks(h)
    ensures var j := Place(h, base); NearlyCanonical(Insert(h, j, Hole(base, n)), if j == 0 then 0 else j - 1)
  {
    FitsBetween(h, base, n);
    hide Insert, Place, Clicks, Span, Canonical, NearlyCanonical;
    var j := Place(h, base);
    InsertedShape(h, j, Hole(base, n), Insert(h, j, Hole(base, n)));
  }

  /** Freeing a taken block keeps the list canonical and adds exactly the clicks of the block. */
  lemma FreeKeeps(h: seq<Hole>, base: int, n: nat)
    requires Canonical(h) && Span(base, n) !! Clicks(h)
    ensures Canonical(Free(h, base, n)) && Clicks(Free(h, base, n)) == Clicks(h) + Span(base, n)
  {
    if n > 0 {
      var j := Place(h, base);
      InsertShape(h, base, n);
      InsertClicks(h, j, Hole(base, n));
      MergeKeeps(Insert(h, j, Hole(base, n)), if j == 0 then 0 else j - 1);
    }
  }

  /** Taking a block and freeing it gives the same list back. */
  lemma TakeThenFree(h: seq<Hole>, i: nat, n: nat)
    requires Canonical(h) && i < |h| && n <= h[i].len
    ensures Free(Take(h, i, n), h[i].base, n) == h
  {
    TakeKeeps(h, i, n);
    FreeKeeps(Take(h, i, n), h[i].base, n);
    CanonicalUnique(Free(Take(h, i, n), h[i].base, n), h);
  }

  /** The order in which disjoint blocks are freed does not matter. */
  lemma FreesCommute(h: seq<Hole>, b: int, n: nat, c: int, m: nat)
    requires Canonical(h) && Span(b, n) !! Clicks(h) && Span(c, m) !! Clicks(h) && Span(b, n) !! Span(c, m)
    ensures Free(Free(h, b, n), c, m) == Free(Free(h, c, m), b, n)
  {
    FreeKeeps(h, b, n);
    FreeKeeps(h, c, m);
    FreeKeeps(Free(h, b, n), c, m);
    FreeKeeps(Free(h, c, m), b, n);
    CanonicalUnique(Free(Free(h, b, n), c, m), Free(Free(h, c, m), b, n));
  }
}
