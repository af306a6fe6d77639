/**
 What the builders compute: a resumable parse of a byte buffer. Each state is
 the part of a builder object that outlives a call; each step says what is left
 in the buffer.
 */
module Parsing {
  import opened Decimal
  import opened Resp
  import opened Wrappers

  // A builder that has not finished its reply.
  datatype Builder =
    | Line(isError: bool)
    | Number
    | Bulk(size: Option<nat>)
    | Rows(count: Option<nat>, done: seq<Reply>, row: Option<Builder>)

  datatype Outcome =
    | More(builder: Builder, rest: string)
    | Ready(reply: Reply, rest: string)
    | Bad

  ghost predicate Suffix(rest: string, s: string) {
    |rest| <= |s| && rest == s[|s| - |rest|..]
  }

  lemma SuffixOfTail(rest: string, s: string)
    requires s != "" && Suffix(rest, s[1..])
    ensures Suffix(rest, s)
  {
  }

  // Position of the first line break.
  function FindBreak(s: string): (p: Option<nat>)
    ensures p.Some? ==> BreakAt(s, p.value) && forall j: nat :: j < p.value ==> !BreakAt(s, j)
    ensures p.None? ==> OneLine(s)
  {
    if |s| < 2 then None
    else if BreakAt(s, 0) then Some(0)
    else
      match FindBreak(s[1..])
      case None =>
        assert forall j: nat :: BreakAt(s, j) ==> j > 0 && BreakAt(s[1..], j - 1);
        None
      case Some(q) =>
        assert forall j: nat :: BreakAt(s, j) ==> j > 0 && BreakAt(s[1..], j - 1);
        Some(q + 1)
  }

  // The builder chosen by the type byte.
  function Create(id: char): Option<Builder> {
    match id
    case '+' => Some(Line(false))
    case '-' => Some(Line(true))
    case ':' => Some(Number)
    case '$' => Some(Bulk(None))
    case '*' => Some(Rows(None, [], None))
    case _ => None
  }

  ghost function Depth(b: Builder): (d: nat)
    ensures d > 0
  {
    if b.Rows? && b.row.Some? then 1 + Depth(b.row.value) else 1
  }

  // A header line: still incomplete, not a number, or a number and what follows.
  datatype Header = Partial | Refused | Size(n: int, rest: string)

  function ReadHeader(s: string): (h: Header)
    ensures h.Size? ==> Suffix(h.rest, s) && |h.rest| < |s|
  {
    match FindBreak(s)
    case None => Partial
    case Some(e) => if ParseInt(s[..e]).None? then Refused else Size(ParseInt(s[..e]).value, s[e + 2..])
  }

  function TakeLine(isError: bool, s: string): (o: Outcome)
    ensures o.More? || (o.Ready? && Suffix(o.rest, s) && |o.rest| < |s|)
    ensures o.More? ==> o == More(Line(isError), s)
  {
    match FindBreak(s)
    case None => More(Line(isError), s)
    case Some(e) => Ready(if isError then Error(s[..e]) else SimpleString(s[..e]), s[e + 2..])
  }

  function TakePayload(n: nat, s: string): (o: Outcome)
    ensures o.Ready? ==> Suffix(o.rest, s) && |o.rest| < |s|
    ensures o.More? ==> o == More(Bulk(Some(n)), s)
  {
    if |s| < n + 2 then More(Bulk(Some(n)), s)
    else if !BreakAt(s, n) then Bad
    else Ready(BulkString(s[..n]), s[n + 2..])
  }

  function Consume(b: Builder, s: string): (o: Outcome)
    ensures !o.Bad? ==> Suffix(o.rest, s)
    ensures o.Ready? ==> |o.rest| < |s|
    decreases |s|, Depth(b)
  {
    match b
    case Line(isError) => TakeLine(isError, s)
    case Number =>
      (match ReadHeader(s)
       case Partial => More(b, s)
       case Refused => Bad
       case Size(n, rest) => Ready(Integer(n), rest))
    case Bulk(None) =>
      (match ReadHeader(s)
       case Partial => More(b, s)
       case Refused => Bad
       case Size(n, rest) =>
         if n == -1 then Ready(Null, rest)
         else if n < 0 || n > INT32_MAX then Bad
         else TakePayload(n, rest))
    case Bulk(Some(n)) => TakePayload(n, s)
    case Rows(None, _, _) =>
      (match ReadHeader(s)
       case Partial => More(b, s)
       case Refused => Bad
       case Size(n, rest) =>
         if n == -1 then Ready(Null, rest)
         else if n < 0 then Bad
         else if n == 0 then Ready(Array([]), rest)
         else Consume(Rows(Some(n), [], None), rest))
    case Rows(Some(n), done, row) =>
      if s == "" then More(b, s) else
      match if row.Some? then Consume(row.value, s) else Start(s)
      case Bad => Bad
      case More(row', rest) => More(Rows(Some(n), done, Some(row')), rest)
      case Ready(r, rest) =>
        if |done| + 1 == n then Ready(Array(done + [r]), rest)
        else Consume(Rows(Some(n), done + [r], None), rest)
  }

  // Choose a builder by the first byte, drop that byte and feed it the rest.
  function Start(s: string): (o: Outcome)
    requires s != ""
    ensures !o.Bad? ==> Suffix(o.rest, s) && |o.rest| < |s|
    decreases |s|, 0
  {
    var c := Create(s[0]);
    if c.None? then Bad else
      var o := Consume(c.value, s[1..]);
      assert !o.Bad? ==> Suffix(o.rest, s) by { if !o.Bad? { SuffixOfTail(o.rest, s); } }
      o
  }

  // One row of an array: its builder goes on, or a new one is chosen.
  ghost function RowOutcome(row: Option<Builder>, s: string): Outcome
    requires s != ""
  {
    if row.Some? then Consume(row.value, s) else Start(s)
  }

  /** An array goes on with the rows still missing after each one it gets. */
  lemma AfterRow(n: nat, done: seq<Reply>, row: Option<Builder>, s: string)
    requires s != ""
    ensures Consume(Rows(Some(n), done, row), s) ==
            match RowOutcome(row, s)
            case Bad => Bad
            case More(b, rest) => More(Rows(Some(n), done, Some(b)), rest)
            case Ready(r, rest) =>
              if |done| + 1 == n then Ready(Array(done + [r]), rest)
              else Consume(Rows(Some(n), done + [r], None), rest)
  {
  }

  lemma BreakInAppend(s: string, t: string)
    ensures FindBreak(s).Some? ==> FindBreak(s + t) == FindBreak(s)
  {
    if FindBreak(s).Some? {
      var e := FindBreak(s).value;
      assert BreakAt(s + t, e);
      assert forall j: nat :: j < e ==> BreakAt(s + t, j) == BreakAt(s, j);
    }
  }

  /** A builder with work left waits for bytes. */
  lemma {:induction false} NothingToDo(b: Builder)
    ensures Consume(b, "") == More(b, "")
  {
    assert FindBreak("").None?;
  }

  // What feeding t to the remains of an earlier step gives.
  ghost function Resume(o: Outcome, t: string): Outcome {
    match o
    case More(b, rest) => Consume(b, rest + t)
    case Ready(r, rest) => Ready(r, rest + t)
    case Bad => Bad
  }

  lemma PayloadResumes(n: nat, s: string, t: string)
    ensures TakePayload(n, s + t) == Resume(TakePayload(n, s), t)
  {
    if |s| >= n + 2 {
      assert (s + t)[..n] == s[..n] && (s + t)[n + 2..] == s[n + 2..] + t;
    }
  }

  lemma LineResumes(isError: bool, s: string, t: string)
    ensures TakeLine(isError, s + t) == Resume(TakeLine(isError, s), t)
  {
    BreakInAppend(s, t);
    if FindBreak(s).Some? {
      var e := FindBreak(s).value;
      assert (s + t)[..e] == s[..e] && (s + t)[e + 2..] == s[e + 2..] + t;
    }
  }

  lemma HeaderResumes(s: string, t: string)
    ensures match ReadHeader(s)
            case Partial => true
            case Refused => ReadHeader(s + t) == Refused
            case Size(n, rest) => ReadHeader(s + t) == Size(n, rest + t)
  {
    BreakInAppend(s, t);
    if FindBreak(s).Some? {
      var e := FindBreak(s).value;
      assert (s + t)[..e] == s[..e] && (s + t)[e + 2..] == s[e + 2..] + t;
    }
  }

  lemma NumberResumes(s: string, t: string)
    ensures Consume(Number, s + t) == Resume(Consume(Number, s), t)
  {
    hide ReadHeader;
    HeaderResumes(s, t);
  }

  // What a bulk string builder does with its size line.
  ghost function BulkOf(h: Header, s: string): Outcome {
    match h
    case Partial => More(Bulk(None), s)
    case Refused => Bad
    case Size(n, rest) =>
      if n == -1 then Ready(Null, rest)
      else if n < 0 || n > INT32_MAX then Bad
      else TakePayload(n, rest)
  }

  lemma BulkStep(s: string)
    ensures Consume(Bulk(None), s) == BulkOf(ReadHeader(s), s)
  {
    hide ReadHeader, TakePayload;
  }

  lemma BulkResumes(s: string, t: string)
    ensures Consume(Bulk(None), s + t) == Resume(Consume(Bulk(None), s), t)
  {
    hide ReadHeader, TakePayload, Consume;
    BulkStep(s);
    BulkStep(s + t);
    HeaderResumes(s, t);
    var h := ReadHeader(s);
    if h.Size? && 0 <= h.n <= INT32_MAX {
      PayloadResumes(h.n, h.rest, t);
    }
  }

  /** Cutting the input anywhere does not change what a builder does. */
  lemma {:induction false} Resumable(b: Builder, s: string, t: string)
    ensures Consume(b, s + t) == Resume(Consume(b, s), t)
    decreases |s|, Depth(b), 1
  {
    hide ReadHeader, TakePayload, TakeLine;
    match b
    case Line(isError) => LineResumes(isError, s, t);
    case Number => NumberResumes(s, t);
    case Bulk(None) => BulkResumes(s, t);
    case Bulk(Some(n)) => PayloadResumes(n, s, t);
    case Rows(None, _, _) => ResumableSize(b, s, t);
    case Rows(Some(_), _, _) => ResumableRow(b, s, t);
  }

  // What an array builder does with its size line.
  ghost function RowsOf(b: Builder, h: Header, s: string): Outcome {
    match h
    case Partial => More(b, s)
    case Refused => Bad
    case Size(n, rest) =>
      if n == -1 then Ready(Null, rest)
      else if n < 0 then Bad
      else if n == 0 then Ready(Array([]), rest)
      else Consume(Rows(Some(n), [], None), rest)
  }

  lemma RowsStep(b: Builder, s: string)
    requires b.Rows? && b.count.None?
    ensures Consume(b, s) == RowsOf(b, ReadHeader(s), s)
  {
    hide ReadHeader;
  }

  lemma {:induction false} ResumableSize(b: Builder, s: string, t: string)
    requires b.Rows? && b.count.None?
    ensures Consume(b, s + t) == Resume(Consume(b, s), t)
    decreases |s|, Depth(b), 0
  {
    hide ReadHeader, Consume;
    RowsStep(b, s);
    RowsStep(b, s + t);
    HeaderResumes(s, t);
    var h := ReadHeader(s);
    if h.Size? && h.n > 0 {
      assert |h.rest| < |s|;
      Resumable(Rows(Some(h.n), [], None), h.rest, t);
    }
  }

  lemma {:induction false} RowResumes(row: Option<Builder>, s: string, t: string, d: nat)
    requires s != "" && d == if row.Some? then Depth(row.value) + 1 else 1
    ensures s + t != "" && RowOutcome(row, s + t) == Resume(RowOutcome(row, s), t)
    decreases |s|, d, 0, 0
  {
    if row.Some? {
      Resumable(row.value, s, t);
    } else {
      assert (s + t)[1..] == s[1..] + t && (s + t)[0] == s[0];
      if Create(s[0]).Some? {
        Resumable(Create(s[0]).value, s[1..], t);
      }
    }
  }

  lemma {:induction false} ResumableRow(b: Builder, s: string, t: string)
    requires b.Rows? && b.count.Some?
    ensures Consume(b, s + t) == Resume(Consume(b, s), t)
    decreases |s|, Depth(b), 0
  {
    NothingToDo(b);
    var n, done := b.count.value, b.done;
    if s == "" {
      assert s + t == t;
    } else {
      RowResumes(b.row, s, t, Depth(b));
      AfterRow(n, done, b.row, s);
      AfterRow(n, done, b.row, s + t);
      assert RowOutcome(b.row, s).Ready? ==> |RowOutcome(b.row, s).rest| < |s|;
      hide Consume, Start;
      match RowOutcome(b.row, s)
      case Bad =>
      case More(row', rest) => WaitingRow(n, done, row', rest + t);
      case Ready(r, rest) =>
        if |done| + 1 != n {
          Resumable(Rows(b.count, done + [r], None), rest, t);
        }
    }
  }

  // An array whose row waits goes on by that row, if there are bytes.
  lemma WaitingRow(n: nat, done: seq<Reply>, row: Builder, s: string)
    ensures Consume(Rows(Some(n), done, Some(row)), s) ==
            match Consume(row, s)
            case Bad => Bad
            case More(b, rest) => More(Rows(Some(n), done, Some(b)), rest)
            case Ready(r, rest) =>
              if |done| + 1 == n then Ready(Array(done + [r]), rest)
              else Consume(Rows(Some(n), done + [r], None), rest)
  {
    if s == "" {
      NothingToDo(row);
    } else {
      AfterRow(n, done, Some(row), s);
    }
  }
}
