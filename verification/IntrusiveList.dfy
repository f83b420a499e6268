/**
 Singly linked lists threaded through a table of link fields, as the sequence of slots they visit.
 */
module IntrusiveList {
  import opened Lists

  const NIL: int := -1

  /** Following the links from head visits exactly the slots of q. */
  ghost predicate IsList(link: seq<int>, head: int, q: seq<int>) {
    && InTable(q, |link|)
    && head == (if q == [] then NIL else q[0])
    && (forall i, j :: 0 <= i < j < |q| && j == i + 1 ==> link[q[i]] == q[j])
    && (q != [] ==> link[q[|q| - 1]] == NIL)
  }

  lemma ListHead(link: seq<int>, head: int, q: seq<int>)
    requires IsList(link, head, q)
    ensures head == (if q == [] then NIL else q[0])
    ensures InTable(q, |link|)
  {
  }

  /** The link out of position j. */
  lemma LinkAt(link: seq<int>, head: int, q: seq<int>, j: nat)
    requires IsList(link, head, q) && j < |q|
    ensures 0 <= q[j] < |link| && link[q[j]] == if j + 1 < |q| then q[j + 1] else NIL
  {
  }

  /** Links of slots that are not on the list do not matter. */
  lemma ListFrame(link: seq<int>, r: seq<int>, head: int, q: seq<int>)
    requires IsList(link, head, q) && |r| == |link|
    requires forall j :: 0 <= j < |q| ==> r[q[j]] == link[q[j]]
    ensures IsList(r, head, q)
  {
  }

  lemma ListSetOther(link: seq<int>, head: int, q: seq<int>, i: int, v: int)
    requires IsList(link, head, q) && 0 <= i < |link| && i !in q
    ensures IsList(link[i := v], head, q)
  {
  }

  lemma ListAppend(link: seq<int>, head: int, q: seq<int>, i: int)
    requires IsList(link, head, q) && NoDup(q) && 0 <= i < |link| && i !in q
    ensures q == [] ==> IsList(link[i := NIL], i, [i])
    ensures q != [] ==> IsList(link[q[|q| - 1] := i][i := NIL], head, q + [i])
  {
    if q != [] {
      var r := link[q[|q| - 1] := i][i := NIL];
      forall j | 0 <= j < |q| - 1 ensures r[q[j]] == q[j + 1] {
        assert q[j] != q[|q| - 1] && q[j] != i;
      }
    }
  }

  lemma ListPush(link: seq<int>, head: int, q: seq<int>, i: int)
    requires IsList(link, head, q) && 0 <= i < |link| && i !in q
    ensures IsList(link[i := head], i, [i] + q)
  {
    var r := link[i := head];
    var s := [i] + q;
    forall j | 0 <= j < |s| - 1 ensures r[s[j]] == s[j + 1] {
      if j > 0 { assert s[j] == q[j - 1] && q[j - 1] in q; }
    }
    assert q != [] ==> q[|q| - 1] in q;
  }

  /** Linking i in after position j. */
  lemma ListInsert(link: seq<int>, head: int, q: seq<int>, j: nat, i: int)
    requires IsList(link, head, q) && NoDup(q) && j < |q| && 0 <= i < |link| && i !in q
    ensures 0 <= q[j] < |link|
    ensures IsList(link[i := link[q[j]]][q[j] := i], head, q[..j + 1] + [i] + q[j + 1..])
  {
    var r := link[i := link[q[j]]][q[j] := i];
    var s := q[..j + 1] + [i] + q[j + 1..];
    forall m | 0 <= m < |s| ensures 0 <= s[m] < |link| && r[s[m]] == if m + 1 < |s| then s[m + 1] else NIL {
      if m < j + 1 {
        assert s[m] == q[m] && q[m] in q;
      } else if m > j + 1 {
        assert s[m] == q[m - 1] && q[m - 1] in q;
      }
    }
  }

  lemma ListDropHead(link: seq<int>, head: int, q: seq<int>)
    requires IsList(link, head, q) && q != []
    ensures 0 <= head < |link| && IsList(link, link[head], q[1..])
  {
  }

  /** Unlinking position j + 1 through its predecessor. */
  lemma ListCut(link: seq<int>, head: int, q: seq<int>, j: nat)
    requires IsList(link, head, q) && NoDup(q) && j + 1 < |q|
    ensures 0 <= q[j] < |link| && 0 <= q[j + 1] < |link|
    ensures IsList(link[q[j] := link[q[j + 1]]], head, q[..j + 1] + q[j + 2..])
  {
    var r := link[q[j] := link[q[j + 1]]];
    var s := q[..j + 1] + q[j + 2..];
    forall m | 0 <= m < |s| ensures 0 <= s[m] < |link| && r[s[m]] == if m + 1 < |s| then s[m + 1] else NIL {
      if m < j + 1 {
        assert s[m] == q[m];
      } else {
        assert s[m] == q[m + 1];
      }
    }
  }

  lemma CutLast(q: seq<int>, j: nat, t: seq<int>)
    requires j + 1 < |q| && t == q[..j + 1] + q[j + 2..]
    ensures |t| == |q| - 1 && t[|t| - 1] == if j + 2 == |q| then q[j] else q[|q| - 1]
  {
  }

  /** The same, in terms of Remove; t is the list without the slot that was cut out. */
  lemma ListUnlink(link: seq<int>, r: seq<int>, head: int, q: seq<int>, j: nat, t: seq<int>)
    requires IsList(link, head, q) && NoDup(q) && j + 1 < |q| && t == Remove(q, q[j + 1])
    requires 0 <= q[j] < |link| && 0 <= q[j + 1] < |link| && r == link[q[j] := link[q[j + 1]]]
    ensures IsList(r, head, t) && NoDup(t) && |t| == |q| - 1
    ensures t[|t| - 1] == if j + 2 == |q| then q[j] else q[|q| - 1]
    ensures forall y :: y in t ==> y in q
  {
    hide IsList;
    RemoveAt(q, j + 1);
    ListCut(link, head, q, j);
    CutLast(q, j, t);
    RemoveMembers(q, q[j + 1]);
  }

  /** Moving the head to the end: the old last slot links to it and it becomes the end. */
  lemma ListRotate(link: seq<int>, head: int, q: seq<int>)
    requires IsList(link, head, q) && NoDup(q) && |q| >= 2
    ensures 0 <= head < |link| && 0 <= q[|q| - 1] < |link|
    ensures IsList(link[q[|q| - 1] := head][head := NIL], link[head], q[1..] + [q[0]])
  {
    ListDropHead(link, head, q);
    assert q[0] !in q[1..];
    ListAppend(link, link[head], q[1..], head);
  }
}
