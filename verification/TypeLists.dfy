/**
 The recursive predicates on type lists that guard the variadic commands.
 */
module TypeLists {
  function Back<T>(ts: seq<T>): T
    requires ts != []
  {
    if |ts| == 1 then ts[0] else Back(ts[1..])
  }

  predicate IsTypePresent<T(==)>(t: T, ts: seq<T>)
    requires ts != []
  {
    if |ts| == 1 then t == ts[0] else t == ts[0] || IsTypePresent(t, ts[1..])
  }

  predicate IsDifferentTypes<T(==)>(ts: seq<T>)
    requires ts != []
  {
    |ts| == 1 || (!IsTypePresent(ts[0], ts[1..]) && IsDifferentTypes(ts[1..]))
  }

  predicate Distinct<T(==)>(ts: seq<T>) {
    forall i, j :: 0 <= i < j < |ts| ==> ts[i] != ts[j]
  }

  lemma {:induction false} BackIsLast<T>(ts: seq<T>)
    requires ts != []
    ensures Back(ts) == ts[|ts| - 1]
  {
    if |ts| > 1 {
      BackIsLast(ts[1..]);
    }
  }

  lemma {:induction false} PresentIffOccurs<T>(t: T, ts: seq<T>)
    requires ts != []
    ensures IsTypePresent(t, ts) <==> t in ts
  {
    if |ts| > 1 {
      PresentIffOccurs(t, ts[1..]);
      assert ts == [ts[0]] + ts[1..];
    }
  }

  /** The recursive check accepts a list exactly when its types are pairwise distinct. */
  lemma {:induction false} DifferentIffDistinct<T>(ts: seq<T>)
    requires ts != []
    ensures IsDifferentTypes(ts) <==> Distinct(ts)
  {
    if |ts| > 1 {
      PresentIffOccurs(ts[0], ts[1..]);
      DifferentIffDistinct(ts[1..]);
      DistinctCons(ts);
    }
  }

  lemma DistinctCons<T>(ts: seq<T>)
    requires ts != []
    ensures Distinct(ts) <==> ts[0] !in ts[1..] && Distinct(ts[1..])
  {
    if ts[0] !in ts[1..] && Distinct(ts[1..]) {
      forall i, j | 0 <= i < j < |ts| ensures ts[i] != ts[j] {
        assert ts[j] == ts[1..][j - 1];
        assert i > 0 ==> ts[i] == ts[1..][i - 1];
      }
    }
    if Distinct(ts) {
      forall j | 0 <= j < |ts[1..]| ensures ts[1..][j] != ts[0] {
        assert ts[1..][j] == ts[j + 1];
      }
      forall i, j | 0 <= i < j < |ts[1..]| ensures ts[1..][i] != ts[1..][j] {
        assert ts[1..][i] == ts[i + 1] && ts[1..][j] == ts[j + 1];
      }
    }
  }
}
