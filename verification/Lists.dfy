/** Facts about sequences that several modules share. */
module Lists {
  lemma Assoc<T>(a: seq<T>, b: seq<T>, c: seq<T>)
    ensures a + b + c == a + (b + c)
  {
  }

  lemma SameLength<T>(a: seq<T>, b: seq<T>, t: seq<T>, u: seq<T>)
    requires |a| == |b| && a + t == b + u
    ensures a == b && t == u
  {
    assert a == (a + t)[..|a|] && b == (b + u)[..|b|];
    assert t == (a + t)[|a|..] && u == (b + u)[|b|..];
  }

  // The first n numbers in order.
  function Range(n: nat): (ids: seq<nat>)
    ensures |ids| == n && forall i :: 0 <= i < n ==> ids[i] == i
  {
    if n == 0 then [] else Range(n - 1) + [n - 1]
  }

  lemma CountSnoc(ids: seq<nat>, last: nat, id: nat)
    ensures multiset(ids + [last])[id] == multiset(ids)[id] + if id == last then 1 else 0
  {
    assert multiset(ids + [last]) == multiset(ids) + multiset{last};
  }

  lemma RangeSnoc(n: nat)
    ensures Range(0) == [] && Range(n + 1) == Range(n) + [n]
  {
  }

  lemma {:induction false} RangeOnce(n: nat, id: nat)
    ensures multiset(Range(n))[id] == if id < n then 1 else 0
  {
    hide Range;
    if n == 0 {
      RangeSnoc(n);
    } else {
      RangeOnce(n - 1, id);
      RangeSnoc(n - 1);
      CountSnoc(Range(n - 1), n - 1, id);
    }
  }

  lemma RangeHas(n: nat, id: nat)
    ensures id in Range(n) <==> id < n
  {
    assert id < n ==> Range(n)[id] == id;
  }
}
