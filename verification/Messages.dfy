/**
 Messages: an id and a multimap of fields. The range overload of push is meant to
 read alternating fields and values; as written its index never moves.
 */
module Messages {
  import opened Lists
  import opened Resp
  import opened Wrappers

  // The values of each field in the order of insertion.
  type Fields = map<string, seq<Reply>>

  datatype Pair = Pair(field: string, value: Reply)

  function ValuesOf(m: Fields, field: string): seq<Reply> {
    if field in m then m[field] else []
  }

  function Insert(m: Fields, p: Pair): Fields {
    m[p.field := ValuesOf(m, p.field) + [p.value]]
  }

  function InsertAll(m: Fields, ps: seq<Pair>): Fields
    decreases |ps|
  {
    if ps == [] then m else InsertAll(Insert(m, ps[0]), ps[1..])
  }

  function ValueFor(p: Pair, field: string): seq<Reply> {
    if p.field == field then [p.value] else []
  }

  function Selected(ps: seq<Pair>, field: string): seq<Reply> {
    if ps == [] then [] else ValueFor(ps[0], field) + Selected(ps[1..], field)
  }

  predicate IsString(r: Reply) {
    r.Error? || r.BulkString? || r.SimpleString?
  }

  // Rows at even places are fields; a field without a value is dropped.
  predicate FieldsAreStrings(rows: seq<Reply>) {
    forall i :: 0 <= i < |rows| && i % 2 == 0 ==> IsString(rows[i])
  }

  function PairsOf(rows: seq<Reply>): seq<Pair>
    requires FieldsAreStrings(rows)
  {
    if |rows| < 2 then []
    else
      assert forall i :: 0 <= i < |rows[2..]| ==> rows[2..][i] == rows[i + 2];
      [Pair(rows[0].text, rows[1])] + PairsOf(rows[2..])
  }

  function Flatten(ps: seq<Pair>): (rows: seq<Reply>)
    ensures |rows| == 2 * |ps| && FieldsAreStrings(rows)
  {
    if ps == [] then [] else [BulkString(ps[0].field), ps[0].value] + Flatten(ps[1..])
  }

  /** Inserting pairs appends to each field exactly its values, in order, and changes no other. */
  lemma {:induction false} InsertAllAppends(m: Fields, ps: seq<Pair>, field: string)
    ensures ValuesOf(InsertAll(m, ps), field) == ValuesOf(m, field) + Selected(ps, field)
    decreases |ps|
  {
    hide ValuesOf;
    hide Insert;
    hide ValueFor;
    if ps == [] {
      assert ValuesOf(m, field) + [] == ValuesOf(m, field);
    } else {
      InsertAllAppends(Insert(m, ps[0]), ps[1..], field);
      InsertAppends(m, ps[0], field);
      Assoc(ValuesOf(m, field), ValueFor(ps[0], field), Selected(ps[1..], field));
    }
  }

  lemma InsertAppends(m: Fields, p: Pair, field: string)
    ensures ValuesOf(Insert(m, p), field) == ValuesOf(m, field) + ValueFor(p, field)
  {
  }

  /** The k-th pair is the row at 2k with the row behind it. */
  lemma {:induction false} PairsAt(rows: seq<Reply>, k: nat)
    requires FieldsAreStrings(rows) && k < |rows| / 2
    ensures |PairsOf(rows)| == |rows| / 2 && PairsOf(rows)[k] == Pair(rows[2 * k].text, rows[2 * k + 1])
    decreases |rows|
  {
    assert forall i :: 0 <= i < |rows[2..]| ==> rows[2..][i] == rows[i + 2];
    if |rows| >= 4 {
      PairsAt(rows[2..], if k == 0 then 0 else k - 1);
    } else {
      assert PairsOf(rows[2..]) == [];
    }
  }

  /** Reading alternating rows undoes flattening. */
  lemma {:induction false} FlattenedPairs(ps: seq<Pair>)
    ensures PairsOf(Flatten(ps)) == ps
  {
    if ps != [] {
      FlattenedPairs(ps[1..]);
      assert Flatten(ps)[2..] == Flatten(ps[1..]);
    }
  }

  /** Leaving the map alone, as the written loop does, is what the rows ask for exactly when they hold no pair. */
  lemma WrittenMeetsIntentIff(m: Fields, rows: seq<Reply>)
    requires FieldsAreStrings(rows)
    ensures InsertAll(m, PairsOf(rows)) == m <==> |rows| < 2
  {
    if |rows| >= 2 {
      var ps := PairsOf(rows);
      InsertAllAppends(m, ps, ps[0].field);
      assert Selected(ps, ps[0].field) != [];
    }
  }

  lemma {:induction false} InsertSnoc(m: Fields, ps: seq<Pair>, p: Pair)
    ensures InsertAll(m, ps + [p]) == Insert(InsertAll(m, ps), p)
    decreases |ps|
  {
    if ps == [] {
      assert [p][1..] == [];
    } else {
      InsertSnoc(Insert(m, ps[0]), ps[1..], p);
      assert (ps + [p])[1..] == ps[1..] + [p];
    }
  }

  lemma {:induction false} PairsSnoc(rows: seq<Reply>, i: nat)
    requires FieldsAreStrings(rows) && i % 2 == 0 && i + 2 <= |rows|
    ensures PairsOf(rows[..i + 2]) == PairsOf(rows[..i]) + [Pair(rows[i].text, rows[i + 1])]
    decreases i
  {
    if i == 0 {
      assert PairsOf(rows[..0]) == [] && rows[..2][2..] == [];
    } else {
      assert forall k :: 0 <= k < |rows[2..]| ==> rows[2..][k] == rows[k + 2];
      PairsSnoc(rows[2..], i - 2);
      assert rows[..i + 2][2..] == rows[2..][..i] && rows[..i][2..] == rows[2..][..i - 2];
    }
  }

  lemma {:induction false} OddRowDropped(rows: seq<Reply>)
    requires FieldsAreStrings(rows)
    ensures PairsOf(rows[..|rows| - |rows| % 2]) == PairsOf(rows)
    decreases |rows|
  {
    if |rows| >= 2 {
      assert forall k :: 0 <= k < |rows[2..]| ==> rows[2..][k] == rows[k + 2];
      OddRowDropped(rows[2..]);
      assert rows[..|rows| - |rows| % 2][2..] == rows[2..][..|rows[2..]| - |rows[2..]| % 2];
    }
  }

  // The map after n rows: a field waits for its value.
  ghost function After(m: Fields, rows: seq<Reply>, n: nat): Fields
    requires n <= |rows| && FieldsAreStrings(rows[..n])
  {
    InsertAll(m, PairsOf(rows[..n - n % 2]))
  }

  lemma AfterNext(m: Fields, rows: seq<Reply>, n: nat)
    requires n < |rows| && FieldsAreStrings(rows[..n + 1]) && FieldsAreStrings(rows[..n])
    ensures n % 2 == 0 ==> After(m, rows, n + 1) == After(m, rows, n)
    ensures n % 2 == 1 ==> IsString(rows[n - 1])
    ensures n % 2 == 1 ==> After(m, rows, n + 1) == Insert(After(m, rows, n), Pair(rows[n - 1].text, rows[n]))
  {
    hide InsertAll;
    if n % 2 == 1 {
      assert rows[..n + 1][n - 1] == rows[n - 1];
      PairsSnoc(rows[..n + 1], n - 1);
      assert rows[..n + 1][..n - 1] == rows[..n - 1] && rows[..n + 1][..n + 1] == rows[..n + 1];
      InsertSnoc(m, PairsOf(rows[..n - 1]), Pair(rows[n - 1].text, rows[n]));
    }
  }

  lemma AfterEnds(m: Fields, rows: seq<Reply>)
    requires FieldsAreStrings(rows)
    ensures FieldsAreStrings(rows[..0]) && After(m, rows, 0) == m
    ensures rows[..|rows|] == rows && After(m, rows, |rows|) == InsertAll(m, PairsOf(rows))
  {
    assert rows[..|rows|] == rows;
    OddRowDropped(rows);
  }

  class Message {
    var id: string
    var values: Fields

    constructor ()
      ensures id == "" && values == map[]
    {
      id, values := "", map[];
    }

    method SetId(id: string)
      modifies this`id
      ensures this.id == id
    {
      this.id := id;
    }

    method Find(field: string) returns (value: Option<Reply>)
      ensures value.Some? <==> ValuesOf(values, field) != []
      ensures value.Some? ==> value.value in ValuesOf(values, field)
    {
      var all := ValuesOf(values, field);
      value := if all == [] then None else Some(all[0]);
    }

    method Push(p: Pair)
      modifies this`values
      ensures values == Insert(old(values), p)
    {
      values := Insert(values, p);
    }

    method PushPairs(ps: seq<Pair>)
      modifies this`values
      ensures values == InsertAll(old(values), ps)
    {
      var n := 0;
      while n < |ps|
        invariant 0 <= n <= |ps| && values == InsertAll(old(values), ps[..n])
      {
        InsertSnoc(old(values), ps[..n], ps[n]);
        assert ps[..n + 1] == ps[..n] + [ps[n]];
        values := Insert(values, ps[n]);
        n := n + 1;
      }
      assert ps[..n] == ps;
    }

    // The range overload as written: every row is taken for a field, and no value is ever stored.
    method PushRange(rows: seq<Reply>) returns (ok: bool)
      modifies this`values
      ensures values == old(values)
      ensures ok <==> forall j :: 0 <= j < |rows| ==> rows[j].Error? || rows[j].BulkString? || rows[j].SimpleString?
    {
      var field := "";
      var i := 2;
      var n := 0;
      while n < |rows|
        invariant 0 <= n <= |rows| && i == 2 && values == old(values)
        invariant forall j :: 0 <= j < n ==> IsString(rows[j])
      {
        if i % 2 == 0 {
          if !IsString(rows[n]) {
            return false;
          }
          field := rows[n].text;
        } else {
          // the branch that stores a value is never reached
          assert false;
        }
        n := n + 1;
      }
      return true;
    }

    // The loop it was meant to be: the index moves with the rows.
    method PushRangeIntended(rows: seq<Reply>) returns (ok: bool)
      modifies this`values
      ensures ok <==> FieldsAreStrings(rows)
      ensures ok ==> values == InsertAll(old(values), PairsOf(rows))
    {
      var field := "";
      var n := 0;
      assert rows[..0] == [];
      while n < |rows|
        invariant 0 <= n <= |rows| && FieldsAreStrings(rows[..n])
        invariant n % 2 == 1 ==> IsString(rows[n - 1]) && field == rows[n - 1].text
        invariant values == After(old(values), rows, n)
      {
        hide After;
        if n % 2 == 0 {
          if !IsString(rows[n]) {
            return false;
          }
          AfterNext(old(values), rows, n);
          field := rows[n].text;
        } else {
          AfterNext(old(values), rows, n);
          values := Insert(values, Pair(field, rows[n]));
        }
        n := n + 1;
      }
      assert rows[..n] == rows;
      AfterEnds(old(values), rows);
      return true;
    }
  }
}
