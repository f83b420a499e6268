/**
 The hole table in its own form: a fixed array of slots, threaded into the list of holes and the list of unused
 slots. Each method leaves the table representing what the function of the same purpose computes on hole lists.
 */
module HoleTable {
  import opened Lists
  import opened IntrusiveList
  import opened HoleList
  import opened Fits

  /** The holes in the slots of a list. */
  function HolesOf(base: seq<int>, len: seq<int>, list: seq<int>): (r: seq<Hole>)
    requires InTable(list, |base|) && |len| == |base|
    ensures |r| == |list| && forall i :: 0 <= i < |list| ==> r[i] == Hole(base[list[i]], len[list[i]])
  {
    seq(|list|, i requires 0 <= i < |list| => Hole(base[list[i]], len[list[i]]))
  }

  lemma HolesSet(base: seq<int>, len: seq<int>, list: seq<int>, j: nat, b: int, n: int)
    requires InTable(list, |base|) && |len| == |base| && NoDup(list) && j < |list|
    ensures HolesOf(base[list[j] := b], len[list[j] := n], list) == HolesOf(base, len, list)[j := Hole(b, n)]
  {
  }

  lemma HolesCut(base: seq<int>, len: seq<int>, list: seq<int>, j: nat)
    requires InTable(list, |base|) && |len| == |base| && j < |list|
    ensures InTable(list[..j] + list[j + 1..], |base|)
    ensures HolesOf(base, len, list[..j] + list[j + 1..]) ==
      HolesOf(base, len, list)[..j] + HolesOf(base, len, list)[j + 1..]
  {
    var t := list[..j] + list[j + 1..];
    forall i | 0 <= i < |t| ensures t[i] == if i < j then list[i] else list[i + 1] {}
  }

  lemma HolesInsert(base: seq<int>, len: seq<int>, list: seq<int>, j: nat, i: int, b: int, n: int)
    requires InTable(list, |base|) && |len| == |base| && j <= |list| && 0 <= i < |base| && i !in list
    ensures InTable(list[..j] + [i] + list[j..], |base|)
    ensures HolesOf(base[i := b], len[i := n], list[..j] + [i] + list[j..]) ==
      Insert(HolesOf(base, len, list), j, Hole(b, n))
  {
    var t := list[..j] + [i] + list[j..];
    forall k | 0 <= k < |t| ensures t[k] == if k < j then list[k] else if k == j then i else list[k - 1] {}
  }

  /** The two lists use every slot of the table once. */
  ghost predicate Slots(n: int, list: seq<int>, free: seq<int>) {
    && InTable(list, n) && InTable(free, n) && |list| + |free| == n
    && NoDup(list) && NoDup(free)
    && (forall i, j :: 0 <= i < |list| && 0 <= j < |free| ==> list[i] != free[j])
  }

  lemma SlotsParts(n: int, list: seq<int>, free: seq<int>)
    requires Slots(n, list, free)
    ensures forall i :: i in list ==> i !in free
  {
  }

  /** Slot j of the list becomes unused. */
  lemma SlotsCut(n: int, list: seq<int>, free: seq<int>, j: nat)
    requires Slots(n, list, free) && j < |list|
    ensures Slots(n, list[..j] + list[j + 1..], [list[j]] + free)
  {
  }

  /** The first unused slot goes to position j of the list. */
  lemma SlotsInsert(n: int, list: seq<int>, free: seq<int>, j: nat)
    requires Slots(n, list, free) && free != [] && j <= |list|
    ensures Slots(n, list[..j] + [free[0]] + list[j..], free[1..])
  {
  }

  lemma AbsorbParts(h: seq<Hole>, k: nat)
    requires Touch(h, k)
    ensures var g := h[k := Hole(h[k].base, h[k].len + h[k + 1].len)]; Absorb(h, k) == g[..k + 1] + g[k + 2..]
  {
  }

  lemma TakeParts(h: seq<Hole>, i: nat, n: nat)
    requires i < |h| && n <= h[i].len
    ensures var g := h[i := Hole(h[i].base + n, h[i].len - n)];
      Take(h, i, n) == if h[i].len == n then g[..i] + g[i + 1..] else g
  {
  }

  class Table {
    const link: array<int>      // h_next
    const base: array<int>      // h_base
    const len: array<int>       // h_len
    var head: int               // hole_head
    var freeSlots: int          // free_slots
    ghost var list: seq<int>
    ghost var free: seq<int>

    ghost predicate Valid()
      reads this, link, base, len
    {
      && link != base && link != len && base != len
      && link.Length == base.Length == len.Length
      && InTable(list, link.Length) && Slots(link.Length, list, free)
      && IsList(link[..], head, list)
      && IsList(link[..], freeSlots, free)
    }

    /** mem_init's first loop: all n slots are unused, each linked to the next. */
    constructor (n: nat)
      requires n > 0
      ensures Valid() && fresh(link) && fresh(base) && fresh(len) && link.Length == n && list == []
    {
      link, base, len := new int[n], new int[n], new int[n];
      head, freeSlots := NIL, 0;
      list, free := [], seq(n, i => i);
      new;
      var i := 0;
      while i < n
        invariant 0 <= i <= n && forall k :: 0 <= k < i ==> link[k] == k + 1
        modifies link
      {
        link[i] := i + 1;
        i := i + 1;
      }
      link[n - 1] := NIL;
    }

    ghost function Holes(): seq<Hole>
      reads this, base, len
      requires base.Length == len.Length && InTable(list, base.Length)
    {
      HolesOf(base[..], len[..], list)
    }

    /** del_slot: hole j of the list, in slot hp, disappears; prev is the slot before it. */
    method DelSlot(prev: int, hp: int, ghost j: nat)
      requires Valid() && j < |list| && hp == list[j] && (j > 0 ==> prev == list[j - 1])
      modifies this, link
      ensures Valid() && list == old(list[..j] + list[j + 1..]) && free == [hp] + old(free)
      ensures Holes() == old(Holes()[..j] + Holes()[j + 1..])
    {
      hide IsList, Slots, HolesOf;
      SlotsParts(link.Length, list, free);
      SlotsCut(link.Length, list, free, j);
      HolesCut(base[..], len[..], list, j);
      Unlink(prev, hp, j);
      ListPush(link[..], freeSlots, free, hp);
      ListSetOther(link[..], head, list, hp, freeSlots);
      link[hp] := freeSlots;
      freeSlots := hp;
      free := [hp] + free;
    }

    /** The first half of del_slot: the list of holes skips hp. */
    method Unlink(prev: int, hp: int, ghost j: nat)
      requires Valid() && j < |list| && hp == list[j] && (j > 0 ==> prev == list[j - 1])
      modifies `head, `list, link
      ensures list == old(list[..j] + list[j + 1..])
      ensures IsList(link[..], head, list) && IsList(link[..], freeSlots, free) && hp !in list && hp !in free
    {
      hide IsList;
      SlotsParts(link.Length, list, free);
      ListHead(link[..], head, list);
      assert hp in list;
      if hp == head {
        assert j == 0;
        ListDropHead(link[..], head, list);
        head := link[hp];
        list := list[1..];
      } else {
        ListCut(link[..], head, list, j - 1);
        ListSetOther(link[..], freeSlots, free, prev, link[hp]);
        link[prev] := link[hp];
        list := list[..j] + list[j + 1..];
      }
    }

    /** The hole at position j gets new bounds. */
    method SetHole(hp: int, b: int, n: int, ghost j: nat)
      requires Valid() && j < |list| && hp == list[j]
      modifies base, len
      ensures Valid() && Holes() == old(Holes())[j := Hole(b, n)]
    {
      hide IsList;
      SlotsParts(link.Length, list, free);
      HolesSet(base[..], len[..], list, j, b, n);
      base[hp] := b;
      len[hp] := n;
    }

    /** One attempt of merge: the hole at position k takes over its successor. */
    method AbsorbNext(hp: int, ghost k: nat)
      requires Valid() && k < |list| && hp == list[k] && Touch(Holes(), k)
      modifies this, link, base, len
      ensures Valid() && Holes() == Absorb(old(Holes()), k)
      ensures |list| == |old(list)| - 1 && k < |list| && list[k] == hp
    {
      hide IsList;
      LinkAt(link[..], head, list, k);
      var next := link[hp];
      AbsorbParts(Holes(), k);
      SetHole(hp, base[hp], len[hp] + len[next], k);
      DelSlot(hp, next, k + 1);
    }

    /** One attempt of merge: absorb the successor if the two holes touch. */
    method TryAbsorb(hp: int, ghost k: nat) returns (joined: bool)
      requires Valid() && k < |list| && hp == list[k] && link[hp] != NIL
      modifies this, link, base, len
      ensures Valid() && joined == Touch(old(Holes()), k) && Holes() == Absorb(old(Holes()), k)
      ensures k < |list| && list[k] == hp && (!joined ==> k + 1 < |list|)
    {
      hide IsList;
      LinkAt(link[..], head, list, k);
      joined := base[hp] + len[hp] == base[link[hp]];
      if joined { AbsorbNext(hp, k); }
    }

    /** merge */
    method Merge(hp: int, ghost k: nat)
      requires Valid() && k < |list| && hp == list[k]
      modifies this, link, base, len
      ensures Valid() && Holes() == HoleList.Merge(old(Holes()), k)
    {
      hide IsList;
      LinkAt(link[..], head, list, k);
      if link[hp] == NIL { return; }
      var joined := TryAbsorb(hp, k);
      LinkAt(link[..], head, list, k);
      if joined {
        if link[hp] == NIL { return; }
        joined := TryAbsorb(hp, k);
      } else {
        var next := link[hp];
        LinkAt(link[..], head, list, k + 1);
        if link[next] == NIL { return; }
        joined := TryAbsorb(next, k + 1);
      }
    }

    /** The slots on both sides of where a block that starts at b goes; prev is NIL in front. */
    method FindPlace(b: int) returns (prev: int, ghost j: nat)
      requires Valid()
      ensures j == Place(Holes(), b) && j <= |list| && (if j == 0 then prev == NIL else prev == list[j - 1])
    {
      hide IsList;
      ListHead(link[..], head, list);
      var hp := head;
      prev := NIL;
      j := 0;
      while hp != NIL && b > base[hp]
        invariant j <= |list| && hp == (if j < |list| then list[j] else NIL)
        invariant if j == 0 then prev == NIL else prev == list[j - 1]
        invariant Place(Holes(), b) == j + Place(Holes()[j..], b)
        decreases |list| - j
      {
        LinkAt(link[..], head, list, j);
        assert Holes()[j..][1..] == Holes()[j + 1..];
        prev := hp;
        hp := link[hp];
        j := j + 1;
      }
    }

    /** Take the first unused slot and link it in after prev, at position j. */
    method LinkIn(prev: int, b: int, n: int, ghost j: nat) returns (slot: int)
      requires Valid() && free != [] && j <= |list| && (if j == 0 then prev == NIL else prev == list[j - 1])
      modifies this, link, base, len
      ensures Valid() && j < |list| && list == old(list[..j]) + [slot] + old(list[j..])
      ensures Holes() == Insert(old(Holes()), j, Hole(b, n))
    {
      SlotsParts(link.Length, list, free);
      SlotsInsert(link.Length, list, free, j);
      slot := freeSlots;
      assert slot == free[0] && slot in free && slot !in list;
      HolesInsert(base[..], len[..], list, j, slot, b, n);
      ListDropHead(link[..], freeSlots, free);
      base[slot] := b;
      len[slot] := n;
      freeSlots := link[slot];
      free := free[1..];
      assert slot !in free;
      Thread(prev, slot, j);
    }

    method Thread(prev: int, slot: int, ghost j: nat)
      requires InTable(list, link.Length) && IsList(link[..], head, list)
        && IsList(link[..], freeSlots, free) && NoDup(list)
      requires 0 <= slot < link.Length && slot !in list && slot !in free && forall i :: i in list ==> i !in free
      requires j <= |list| && (if j == 0 then prev == NIL else prev == list[j - 1])
      modifies `head, `list, link
      ensures list == old(list[..j]) + [slot] + old(list[j..])
      ensures IsList(link[..], head, list) && IsList(link[..], freeSlots, free)
    {
      if prev == NIL {
        assert j == 0;
        ListPush(link[..], head, list, slot);
        ListSetOther(link[..], freeSlots, free, slot, head);
        link[slot] := head;
        head := slot;
        list := [slot] + list;
      } else {
        assert list[j - 1] in list;
        ListInsert(link[..], head, list, j - 1, slot);
        ListSetOther(link[..], freeSlots, free, slot, link[prev]);
        ListSetOther(link[..][slot := link[prev]], freeSlots, free, prev, slot);
        link[slot] := link[prev];
        link[prev] := slot;
        list := list[..j] + [slot] + list[j..];
      }
    }

    /** free_mem; it panics, without a change, when no slot is unused. */
    method FreeMem(b: int, n: nat) returns (panicked: bool)
      requires Valid()
      modifies this, link, base, len
      ensures Valid() && panicked == (n > 0 && |old(list)| == link.Length)
      ensures Holes() == if panicked then old(Holes()) else Free(old(Holes()), b, n)
    {
      hide IsList, Place, Insert, HoleList.Merge;
      if n == 0 { return false; }
      ListHead(link[..], freeSlots, free);
      if freeSlots == NIL {
        assert free == [];
        return true;
      }
      var prev, j := FindPlace(b);
      var slot := LinkIn(prev, b, n, j);
      if prev == NIL { Merge(slot, 0); } else { Merge(prev, j - 1); }
      return false;
    }

    /** Bite n clicks off the hole at position j; prev is the slot before it. */
    method Bite(prev: int, hp: int, n: nat, ghost j: nat) returns (start: int)
      requires Valid() && j < |list| && hp == list[j] && (j > 0 ==> prev == list[j - 1]) && n <= len[hp]
      modifies this, link, base, len
      ensures Valid() && start == old(base[hp]) && Holes() == Take(old(Holes()), j, n)
      ensures |list| <= |old(list)|
    {
      hide IsList;
      start := base[hp];
      TakeParts(Holes(), j, n);
      SetHole(hp, base[hp] + n, len[hp] - n, j);
      if len[hp] == 0 { DelSlot(prev, hp, j); }
    }

    /** The scan of worst fit. */
    method FindWorst(n: nat) returns (best: int, bestPrev: int, ghost j: int)
      requires Valid()
      ensures j == WorstFit(Holes(), n) && (j > 0 ==> bestPrev == list[j - 1])
      ensures best == if WorstFit(Holes(), n) < 0 then NIL else list[WorstFit(Holes(), n)]
    {
      hide IsList;
      ListHead(link[..], head, list);
      var h, prev := head, NIL;
      var maxLen := 0;
      best, bestPrev, j := NIL, NIL, -1;
      ghost var i := 0;
      while h != NIL
        invariant i <= |list| && h == (if i < |list| then list[i] else NIL) && (i > 0 ==> prev == list[i - 1])
        invariant -1 <= j < i && best == (if j < 0 then NIL else list[j]) && (j > 0 ==> bestPrev == list[j - 1])
        invariant maxLen == (if j < 0 then 0 else Holes()[j].len) && (j >= 0 ==> Holes()[j].len >= n)
        invariant WorstFit(Holes(), n) == WorstFrom(Holes(), n, i, j)
        decreases |list| - i
      {
        LinkAt(link[..], head, list, i);
        if len[h] >= n && len[h] > maxLen {
          maxLen, best, bestPrev, j := len[h], h, prev, i;
        }
        prev, h, i := h, link[h], i + 1;
      }
    }

    /** The scan of first fit; it stops at the first hole that starts at or above the limit. */
    method FindFirst(limit: int, n: nat) returns (hp: int, prev: int, ghost j: int)
      requires Valid()
      ensures j == FirstFit(Holes(), limit, n, 0) && (j > 0 ==> prev == list[j - 1])
      ensures hp == if FirstFit(Holes(), limit, n, 0) < 0 then NIL else list[FirstFit(Holes(), limit, n, 0)]
    {
      hide IsList;
      ListHead(link[..], head, list);
      hp, prev, j := head, NIL, 0;
      while hp != NIL && base[hp] < limit
        invariant 0 <= j <= |list| && hp == (if j < |list| then list[j] else NIL) && (j > 0 ==> prev == list[j - 1])
        invariant FirstFit(Holes(), limit, n, 0) == FirstFit(Holes(), limit, n, j)
        decreases |list| - j
      {
        LinkAt(link[..], head, list, j);
        if len[hp] >= n { return; }
        prev, hp, j := hp, link[hp], j + 1;
      }
      hp, j := NIL, -1;
    }

    /** swap_out's scan for a swap hole. */
    method FindSwap(limit: int, n: nat) returns (hp: int, prev: int, ghost j: int)
      requires Valid()
      ensures j == SwapFit(Holes(), limit, n, 0) && (j > 0 ==> prev == list[j - 1])
      ensures hp == if SwapFit(Holes(), limit, n, 0) < 0 then NIL else list[SwapFit(Holes(), limit, n, 0)]
    {
      hide IsList;
      ListHead(link[..], head, list);
      hp, prev, j := head, NIL, 0;
      while hp != NIL
        invariant 0 <= j <= |list| && hp == (if j < |list| then list[j] else NIL) && (j > 0 ==> prev == list[j - 1])
        invariant SwapFit(Holes(), limit, n, 0) == SwapFit(Holes(), limit, n, j)
        decreases |list| - j
      {
        LinkAt(link[..], head, list, j);
        if base[hp] >= limit && len[hp] >= n { return; }
        prev, hp, j := hp, link[hp], j + 1;
      }
      j := -1;
    }
  }
}
