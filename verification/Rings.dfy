/**
 The ring of slots behind both bounded buffers: item number j lives in slot j modulo the capacity.
 */
module Rings {

  /** The slot of item number j. */
  function Slot(j: nat, n: nat): (r: nat)
    requires n > 0
    ensures r < n
  {
    j % n
  }

  lemma Distributes(n: int, q: int)
    ensures n * (q + 1) == n * q + n
  {
  }

  lemma SlotNext(j: nat, n: nat)
    requires n > 0
    ensures Slot(j + 1, n) == (Slot(j, n) + 1) % n
  {
    var q, r := j / n, j % n;
    Distributes(n, q);
    if r + 1 < n {
      Quotient(j + 1, n, q, r + 1);
      Quotient(r + 1, n, 0, r + 1);
    } else {
      Quotient(j + 1, n, q + 1, 0);
      Quotient(r + 1, n, 1, 0);
    }
  }

  lemma Quotient(j: nat, n: nat, q: nat, r: nat)
    requires r < n && j == n * q + r
    ensures j % n == r
  {
    var p, t := j / n, j % n;
    assert j == n * p + t;
    assert n * (p - q) == n * p - n * q;
    Multiple(n, p - q, r - t);
  }

  /** No multiple of n lies strictly between -n and n but 0. */
  lemma Multiple(n: int, k: int, d: int)
    requires n > 0 && n * k == d && -n < d < n
    ensures d == 0
  {
    assert k > 0 ==> n * k >= n;
    assert k < 0 ==> n * k <= 0 - n;
  }

  /** Items less than n apart have different slots. */
  lemma SlotsDiffer(j: nat, k: nat, n: nat)
    requires n > 0 && j < k < j + n
    ensures Slot(j, n) != Slot(k, n)
  {
    if j % n == k % n {
      assert n * (k / n - j / n) == k - j;
      Multiple(n, k / n - j / n, k - j);
    }
  }

  /** The ring holds items number `from` to |items| - 1 of a history. */
  ghost predicate Holds(slots: seq<int>, items: seq<int>, from: nat) {
    && |slots| > 0 && from <= |items| <= from + |slots|
    && forall j :: from <= j < |items| ==> slots[Slot(j, |slots|)] == items[j]
  }

  /** Writing the slot behind the last item keeps all items, because one slot is free. */
  lemma HoldsStore(slots: seq<int>, items: seq<int>, from: nat, x: int)
    requires Holds(slots, items, from) && |items| < from + |slots|
    ensures Holds(slots[Slot(|items|, |slots|) := x], items, from)
  {
    forall j | from <= j < |items| ensures Slot(j, |slots|) != Slot(|items|, |slots|) {
      SlotsDiffer(j, |items|, |slots|);
    }
  }

  lemma HoldsAppend(slots: seq<int>, items: seq<int>, from: nat, x: int)
    requires Holds(slots, items, from) && |items| < from + |slots| && slots[Slot(|items|, |slots|)] == x
    ensures Holds(slots, items + [x], from)
  {
  }

  /** On a full ring the same write destroys the oldest item, unless it happens to be equal. */
  lemma StoreSafeIff(slots: seq<int>, items: seq<int>, from: nat, x: int)
    requires Holds(slots, items, from)
    ensures Holds(slots[Slot(|items|, |slots|) := x], items, from) <==> (|items| < from + |slots| || items[from] == x)
  {
    if |items| < from + |slots| {
      HoldsStore(slots, items, from, x);
    } else {
      var n := |slots|;
      assert (from + n) % n == from % n by {
        var q, r := from / n, from % n;
        Distributes(n, q);
        Quotient(from + n, n, q + 1, r);
      }
      forall j | from < j < |items| ensures Slot(j, n) != Slot(|items|, n) { SlotsDiffer(j, |items|, n); }
    }
  }

  /** buffer.c: no field says how many items there are. */
  class Buffer {
    const cells: array<int>
    const capacity: nat
    var inp: nat
    var outp: nat
    ghost var pushed: seq<int>     // everything ever pushed
    ghost var popped: nat          // how many of them have been popped

    ghost predicate Valid()
      reads this, cells
    {
      && capacity == cells.Length && Holds(cells[..], pushed, popped)
      && inp == Slot(|pushed|, capacity) && outp == Slot(popped, capacity)
    }

    /** What has been pushed and not popped yet. */
    ghost function Contents(): seq<int>
      reads this
      requires popped <= |pushed|
    {
      pushed[popped..]
    }

    /** init_buffer */
    constructor (size: nat)
      requires size > 0
      ensures Valid() && capacity == size && Contents() == [] && fresh(cells)
    {
      cells := new int[size];
      capacity := size;
      inp, outp := 0, 0;
      pushed, popped := [], 0;
    }

    /** buffer_push, called only when a slot is free */
    method Push(item: int)
      requires Valid() && |Contents()| < capacity
      modifies this, cells
      ensures Valid() && Contents() == old(Contents()) + [item] && popped == old(popped)
    {
      HoldsStore(cells[..], pushed, popped, item);
      SlotNext(|pushed|, capacity);
      cells[inp] := item;
      inp := (inp + 1) % capacity;
      HoldsAppend(cells[..], pushed, popped, item);
      pushed := pushed + [item];
    }

    /** buffer_pop, called only when an item is there */
    method Pop() returns (item: int)
      requires Valid() && Contents() != []
      modifies this
      ensures Valid() && [item] + Contents() == old(Contents()) && pushed == old(pushed)
    {
      SlotNext(popped, capacity);
      item := cells[outp];
      outp := (outp + 1) % capacity;
      popped := popped + 1;
    }
  }
}
