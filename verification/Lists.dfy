/** Duplicate-free sequences: the abstract value of every intrusive linked list in the kernel. */
module Lists {

  ghost predicate NoDup<T>(q: seq<T>) {
    forall i, j :: 0 <= i < j < |q| ==> q[i] != q[j]
  }

  /** Every element is an index below n. */
  ghost predicate InTable(q: seq<int>, n: int) {
    forall j :: 0 <= j < |q| ==> 0 <= q[j] < n
  }

  /** The sequence without the first occurrence of x; unchanged when x does not occur. */
  function Remove<T(==)>(q: seq<T>, x: T): (r: seq<T>)
    ensures forall j :: 0 <= j < |r| ==> r[j] in q
  {
    if q == [] then []
    else if q[0] == x then q[1..]
    else [q[0]] + Remove(q[1..], x)
  }

  lemma {:induction false} RemoveMembers<T>(q: seq<T>, x: T)
    requires NoDup(q)
    ensures NoDup(Remove(q, x))
    ensures forall y :: y in Remove(q, x) <==> y in q && y != x
  {
    if q != [] {
      assert forall y :: y in q <==> y == q[0] || y in q[1..];
      if q[0] == x {
        assert forall y :: y in q[1..] ==> y != x;
      } else {
        RemoveMembers(q[1..], x);
        assert forall y :: y in Remove(q, x) <==> y == q[0] || y in Remove(q[1..], x);
        assert q[0] !in q[1..];
      }
    }
  }

  lemma {:induction false} RemoveAbsent<T>(q: seq<T>, x: T)
    requires x !in q
    ensures Remove(q, x) == q
  {
    if q != [] {
      RemoveAbsent(q[1..], x);
    }
  }

  /** Removing the element at a known position is cutting it out. */
  lemma {:induction false} RemoveAt<T>(q: seq<T>, i: nat)
    requires i < |q| && forall j :: 0 <= j < i ==> q[j] != q[i]
    ensures Remove(q, q[i]) == q[..i] + q[i + 1..]
  {
    if i > 0 {
      var t := q[1..];
      assert t[i - 1] == q[i] && forall j :: 0 <= j < i - 1 ==> t[j] == q[j + 1];
      RemoveAt(t, i - 1);
      assert q[0] != q[i];
      calc {
        Remove(q, q[i]);
        [q[0]] + Remove(t, q[i]);
        [q[0]] + (t[..i - 1] + t[i..]);
        { assert q[..i] == [q[0]] + t[..i - 1] && q[i + 1..] == t[i..]; }
        q[..i] + q[i + 1..];
      }
    }
  }

  lemma NoDupAppend<T>(q: seq<T>, x: T)
    requires NoDup(q) && x !in q
    ensures NoDup(q + [x]) && NoDup([x] + q)
  {
  }

  lemma NoDupConcat<T>(a: seq<T>, b: seq<T>)
    requires NoDup(a) && NoDup(b) && forall y :: y in b ==> y !in a
    ensures NoDup(a + b)
  {
    var q := a + b;
    forall i, j | 0 <= i < j < |q| ensures q[i] != q[j] {
      if i < |a| <= j { assert b[j - |a|] in b; }
    }
  }
}
