/**
 The builder objects. Each consumes a buffer in place, keeps what it needs for
 the next call in its fields, and computes the step of module Parsing. The
 abstract base class and the owning pointer to it become the type Handle.
 */
module Builders {
  import opened Decimal
  import opened Parsing
  import opened Resp
  import opened Wrappers

  // Where a builder object stands.
  datatype Stage = Working(builder: Builder) | Finished(reply: Reply)

  // One call: the new stage and the bytes left, or nothing when the bytes are refused.
  ghost function Step(st: Stage, s: string): Option<(Stage, string)> {
    match st
    case Finished(_) => Some((st, s))
    case Working(b) =>
      match Consume(b, s)
      case Bad => None
      case More(b', rest) => Some((Working(b'), rest))
      case Ready(r, rest) => Some((Finished(r), rest))
  }

  class SimpleStringBuilder {
    var str: string
    var replyReady: bool
    var reply: Reply

    ghost predicate Valid()
      reads this
    {
      replyReady ==> reply == SimpleString(str)
    }

    ghost function Now(): Stage
      reads this
    {
      if replyReady then Finished(reply) else Working(Line(false))
    }

    constructor ()
      ensures Valid() && Now() == Working(Line(false))
    {
      str, replyReady, reply := "", false, Null;
    }

    method Push(buffer: string) returns (rest: string)
      requires Valid()
      modifies this
      ensures Valid() && Step(old(Now()), buffer) == Some((Now(), rest))
    {
      rest := buffer;
      if replyReady { return; }
      var end := FindBreak(buffer);
      if end.None? { return; }
      str, rest := buffer[..end.value], buffer[end.value + 2..];
      reply, replyReady := SimpleString(str), true;
    }
  }

  class ErrorBuilder {
    const stringBuilder: SimpleStringBuilder
    var reply: Reply

    ghost predicate Valid()
      reads this, stringBuilder
    {
      && stringBuilder.Valid()
      && (stringBuilder.replyReady ==> reply == Error(stringBuilder.str))
    }

    ghost function Now(): Stage
      reads this, stringBuilder
    {
      if stringBuilder.replyReady then Finished(reply) else Working(Line(true))
    }

    constructor ()
      ensures Valid() && Now() == Working(Line(true)) && fresh(stringBuilder)
    {
      stringBuilder := new SimpleStringBuilder();
      reply := Null;
    }

    method Push(buffer: string) returns (rest: string)
      requires Valid()
      modifies this, stringBuilder
      ensures Valid() && Step(old(Now()), buffer) == Some((Now(), rest))
    {
      rest := buffer;
      if stringBuilder.replyReady { return; }
      rest := stringBuilder.Push(buffer);
      if stringBuilder.replyReady {
        reply := Error(stringBuilder.str);
      }
    }
  }

  class IntegerBuilder {
    var nbr: int
    var negativeMultiplicator: int
    var replyReady: bool
    var reply: Reply

    ghost predicate Valid()
      reads this
    {
      if replyReady then reply == Integer(negativeMultiplicator * nbr)
      else nbr == 0 && negativeMultiplicator == 1
    }

    ghost function Now(): Stage
      reads this
    {
      if replyReady then Finished(reply) else Working(Number)
    }

    constructor ()
      ensures Valid() && Now() == Working(Number)
    {
      nbr, negativeMultiplicator, replyReady, reply := 0, 1, false, Null;
    }

    method Push(buffer: string) returns (ok: bool, rest: string)
      requires Valid()
      modifies this
      ensures ok <==> Step(old(Now()), buffer).Some?
      ensures ok ==> Valid() && Step(old(Now()), buffer) == Some((Now(), rest))
    {
      ok, rest := true, buffer;
      if replyReady { return; }
      var end := FindBreak(buffer);
      if end.None? { return; }
      ok := ReadNumber(buffer[..end.value]);
      if !ok { return; }
      rest := buffer[end.value + 2..];
      reply, replyReady := Integer(negativeMultiplicator * nbr), true;
    }

    // The digits of a line, most significant first. The accumulator never
    // leaves the 64-bit range: a digit that would push it out stops the scan.
    method ReadNumber(line: string) returns (ok: bool)
      requires nbr == 0 && negativeMultiplicator == 1
      modifies this`nbr, this`negativeMultiplicator
      ensures ok <==> ParseInt(line).Some?
      ensures ok <==> AllDigits(Magnitude(line)) && Value(Magnitude(line)) <= 9223372036854775807
      ensures ok ==> 0 <= nbr <= INT64_MAX && ParseInt(line).value == negativeMultiplicator * nbr
    {
      if Negative(line) {
        negativeMultiplicator := -1;
      }
      var digits := Magnitude(line);
      var i := 0;
      while i < |digits|
        invariant 0 <= i <= |digits| && AllDigits(digits[..i])
        invariant nbr == Value(digits[..i]) <= INT64_MAX
        invariant negativeMultiplicator == if Negative(line) then -1 else 1
      {
        ScanStep(digits, i);
        if !IsDigit(digits[i]) || nbr * 10 + DigitValue(digits[i]) > INT64_MAX { return false; }
        nbr, i := nbr * 10 + DigitValue(digits[i]), i + 1;
      }
      assert digits[..i] == digits;
      return true;
    }
  }

  class BulkStringBuilder {
    const intBuilder: IntegerBuilder
    var strSize: int
    var str: string
    var isNull: bool
    var replyReady: bool
    var reply: Reply

    ghost predicate Valid()
      reads this, intBuilder
    {
      && intBuilder.Valid()
      && (replyReady ==> reply == if isNull then Null else BulkString(str))
      && (!replyReady ==> !isNull && (intBuilder.replyReady ==> 0 <= strSize <= INT32_MAX))
    }

    ghost function Now(): Stage
      requires Valid()
      reads this, intBuilder
    {
      if replyReady then Finished(reply)
      else Working(Bulk(if intBuilder.replyReady then Some(strSize) else None))
    }

    constructor ()
      ensures Valid() && Now() == Working(Bulk(None)) && fresh(intBuilder)
    {
      intBuilder := new IntegerBuilder();
      strSize, str, isNull, replyReady, reply := 0, "", false, false, Null;
    }

    method BuildReply()
      requires intBuilder.Valid()
      modifies this`reply, this`replyReady
      ensures Valid() && replyReady && reply == if isNull then Null else BulkString(str)
    {
      reply, replyReady := if isNull then Null else BulkString(str), true;
    }

    // What remains to be done once the size is known.
    ghost function Sized(rest: string): Outcome
      reads this
      requires replyReady || strSize >= 0
    {
      if replyReady then Ready(reply, rest) else TakePayload(strSize, rest)
    }

    method FetchSize(buffer: string) returns (ok: bool, found: bool, rest: string)
      requires Valid() && !replyReady && !intBuilder.replyReady
      modifies this, intBuilder
      ensures ok ==> Valid() && found == intBuilder.replyReady
      ensures ok && found && !replyReady ==> 0 <= strSize <= 2147483647
      ensures ok && !found ==> Now() == Working(Bulk(None)) && Consume(Bulk(None), buffer) == More(Bulk(None), rest)
      ensures ok && found ==> Consume(Bulk(None), buffer) == Sized(rest)
      ensures !ok ==> Consume(Bulk(None), buffer).Bad?
    {
      found := false;
      ok, rest := intBuilder.Push(buffer);
      if !ok || !intBuilder.replyReady { return; }
      found := true;
      var size := intBuilder.reply.value;
      if size == -1 {
        isNull := true;
        BuildReply();
      } else if 0 <= size <= INT32_MAX {
        strSize := size;
      } else {
        ok := false;
      }
    }

    method FetchStr(buffer: string) returns (ok: bool, rest: string)
      requires Valid() && !replyReady && intBuilder.replyReady
      modifies this
      ensures ok <==> Step(old(Now()), buffer).Some?
      ensures ok ==> Valid() && Step(old(Now()), buffer) == Some((Now(), rest))
    {
      ok, rest := true, buffer;
      if |buffer| < strSize + 2 { return; }
      if buffer[strSize] != '\r' || buffer[strSize + 1] != '\n' { return false, rest; }
      str, rest := buffer[..strSize], buffer[strSize + 2..];
      BuildReply();
    }

    method Push(buffer: string) returns (ok: bool, rest: string)
      requires Valid()
      modifies this, intBuilder
      ensures ok <==> Step(old(Now()), buffer).Some?
      ensures ok ==> Valid() && Step(old(Now()), buffer) == Some((Now(), rest))
    {
      ok, rest := true, buffer;
      if replyReady { return; }
      if !intBuilder.replyReady {
        var found;
        ok, found, rest := FetchSize(buffer);
        if !ok || !found || replyReady { return; }
      }
      ok, rest := FetchStr(rest);
    }
  }

  // The owning pointer to a builder of any class.
  datatype Handle =
    | NoBuilder
    | SimpleH(simple: SimpleStringBuilder)
    | ErrorH(error: ErrorBuilder)
    | IntegerH(integer: IntegerBuilder)
    | BulkH(bulk: BulkStringBuilder)
    | ArrayH(arr: ArrayBuilder)

  // The handle's objects all lie in R and are consistent.
  ghost predicate Owned(h: Handle, R: set<object>)
    reads R
    decreases R, 3
  {
    match h
    case NoBuilder => true
    case SimpleH(b) => b in R && b.Valid()
    case ErrorH(b) => b in R && b.stringBuilder in R && b.Valid()
    case IntegerH(b) => b in R && b.Valid()
    case BulkH(b) => b in R && b.intBuilder in R && b.Valid()
    case ArrayH(b) => b in R && b.Repr <= R && b.Valid()
  }

  ghost function StageOf(h: Handle, R: set<object>): Stage
    requires Owned(h, R) && h != NoBuilder
    reads R
    decreases R, 4
  {
    match h
    case SimpleH(b) => b.Now()
    case ErrorH(b) => b.Now()
    case IntegerH(b) => b.Now()
    case BulkH(b) => b.Now()
    case ArrayH(b) => b.Now()
  }

  lemma OwnedGrows(h: Handle, R: set<object>, R': set<object>)
    requires Owned(h, R) && R <= R'
    ensures Owned(h, R')
    ensures h != NoBuilder ==> StageOf(h, R') == StageOf(h, R)
  {
  }

  // The factory: a new builder for a type byte.
  method CreateBuilder(id: char) returns (h: Handle, ghost R: set<object>)
    ensures fresh(R) && Owned(h, R)
    ensures h == NoBuilder <==> Create(id).None?
    ensures h != NoBuilder ==> StageOf(h, R) == Working(Create(id).value)
  {
    h, R := NoBuilder, {};
    match id {
      case '+' =>
        var b := new SimpleStringBuilder();
        h, R := SimpleH(b), {b};
      case '-' =>
        var b := new ErrorBuilder();
        h, R := ErrorH(b), {b, b.stringBuilder};
      case ':' =>
        var b := new IntegerBuilder();
        h, R := IntegerH(b), {b};
      case '$' =>
        var b := new BulkStringBuilder();
        h, R := BulkH(b), {b, b.intBuilder};
      case '*' =>
        var b := new ArrayBuilder();
        h, R := ArrayH(b), b.Repr;
      case _ =>
    }
  }

  // The virtual call: whatever the builder's class, it takes one step.
  method PushTo(h: Handle, buffer: string, ghost R: set<object>) returns (ok: bool, rest: string, ghost R': set<object>)
    requires h != NoBuilder && Owned(h, R)
    modifies R
    ensures fresh(R' - R)
    ensures ok <==> Step(old(StageOf(h, R)), buffer).Some?
    ensures ok ==> Owned(h, R') && Step(old(StageOf(h, R)), buffer) == Some((StageOf(h, R'), rest))
    decreases |buffer|, R, 3
  {
    ok, R' := true, R;
    match h {
      case SimpleH(b) => rest := b.Push(buffer);
      case ErrorH(b) => rest := b.Push(buffer);
      case IntegerH(b) => ok, rest := b.Push(buffer);
      case BulkH(b) => ok, rest := b.Push(buffer);
      case ArrayH(b) =>
        ok, rest := b.Push(buffer);
        R' := R + b.Repr;
    }
  }

  // Whether the reply is there, and which.
  method ReplyOf(h: Handle, ghost R: set<object>) returns (ready: bool, reply: Reply)
    requires h != NoBuilder && Owned(h, R)
    ensures ready == StageOf(h, R).Finished?
    ensures ready ==> StageOf(h, R) == Finished(reply)
  {
    match h {
      case SimpleH(b) => ready, reply := b.replyReady, b.reply;
      case ErrorH(b) => ready, reply := b.stringBuilder.replyReady, b.reply;
      case IntegerH(b) => ready, reply := b.replyReady, b.reply;
      case BulkH(b) => ready, reply := b.replyReady, b.reply;
      case ArrayH(b) => ready, reply := b.replyReady, b.reply;
    }
  }

  // A row builder between two calls: none, or one still at work.
  ghost predicate Unfinished(h: Handle, R: set<object>)
    reads R
    decreases R, 5
  {
    Owned(h, R) && (h != NoBuilder ==> StageOf(h, R).Working?)
  }

  ghost function Row(h: Handle, R: set<object>): Option<Builder>
    requires Unfinished(h, R)
    reads R
    decreases R, 6
  {
    if h == NoBuilder then None else Some(StageOf(h, R).builder)
  }

  class ArrayBuilder {
    const intBuilder: IntegerBuilder
    var arraySize: nat
    var current: Handle
    var replyReady: bool
    var reply: Reply
    ghost var Repr: set<object>

    ghost function Inner(): set<object>
      reads this
    {
      Repr - {this, intBuilder}
    }

    ghost predicate Valid()
      reads this, Repr
      decreases Repr, 1
    {
      && this in Repr && intBuilder in Repr && intBuilder.Valid()
      && Unfinished(current, Inner())
      && (!replyReady ==>
            && reply.Array?
            && if intBuilder.replyReady then |reply.rows| < arraySize
               else reply.rows == [] && current == NoBuilder)
    }

    ghost function Now(): Stage
      requires Valid()
      reads this, Repr
      decreases Repr, 2
    {
      if replyReady then Finished(reply)
      else Working(Rows(if intBuilder.replyReady then Some(arraySize) else None, reply.rows, Row(current, Inner())))
    }

    constructor ()
      ensures Valid() && fresh(Repr) && Now() == Working(Rows(None, [], None))
    {
      intBuilder := new IntegerBuilder();
      arraySize, current, replyReady, reply := 0, NoBuilder, false, Array([]);
      new;
      Repr := {this, intBuilder};
    }

    method FetchArraySize(buffer: string) returns (ok: bool, found: bool, rest: string)
      requires Valid() && !replyReady && !intBuilder.replyReady
      modifies this`arraySize, this`replyReady, this`reply, intBuilder
      ensures !ok ==> Consume(Rows(None, [], None), buffer).Bad?
      ensures ok ==> Valid() && found == intBuilder.replyReady && |rest| <= |buffer|
      ensures ok && !found ==> Consume(Rows(None, [], None), buffer) == More(Rows(None, [], None), rest) && !replyReady
      ensures ok && found ==> Step(Working(Rows(None, [], None)), buffer) == Step(Now(), rest)
    {
      found := false;
      ok, rest := intBuilder.Push(buffer);
      if !ok || !intBuilder.replyReady { return; }
      found := true;
      var size := intBuilder.reply.value;
      if size == -1 {
        reply, replyReady := Null, true;
      } else if size == 0 {
        replyReady := true;
      } else if size > 0 {
        arraySize := size;
      } else {
        ok := false;
      }
    }

    // A builder for a new row, chosen by the row's type byte.
    method NewRow(id: char) returns (ok: bool)
      requires Valid() && !replyReady && intBuilder.replyReady && current == NoBuilder
      modifies this`current, this`Repr
      ensures fresh(Repr - old(Repr))
      ensures ok <==> Create(id).Some?
      ensures ok ==> Valid() && Row(current, Inner()) == Create(id)
    {
      ghost var R;
      current, R := CreateBuilder(id);
      Repr := Repr + R;
      ok := current != NoBuilder;
      OwnedGrows(current, R, Inner());
    }

    // Feed the row's builder and move its reply, if finished, into the array.
    method PushRow(buffer: string) returns (ok: bool, built: bool, rest: string)
      requires Valid() && !replyReady && intBuilder.replyReady && current != NoBuilder
      modifies Repr
      ensures fresh(Repr - old(Repr))
      ensures var o := Consume(old(Row(current, Inner())).value, buffer);
              && (ok <==> !o.Bad?)
              && (ok ==> rest == o.rest && built == o.Ready?)
              && (ok ==> Valid() && intBuilder.replyReady && arraySize == old(arraySize))
              && (o.More? ==> !replyReady && reply == old(reply) && Row(current, Inner()) == Some(o.builder))
              && (o.Ready? ==> current == NoBuilder && reply == Array(old(reply).rows + [o.reply]))
              && (o.Ready? ==> replyReady == (|reply.rows| == arraySize))
      decreases |buffer|, Repr, 0
    {
      built := false;
      ghost var R;
      ok, rest, R := PushTo(current, buffer, Inner());
      if !ok { return; }
      Repr := Repr + R;
      OwnedGrows(current, R, Inner());
      var row;
      built, row := ReplyOf(current, R);
      if !built { return; }
      reply, current := Array(reply.rows + [row]), NoBuilder;
      replyReady := |reply.rows| == arraySize;
    }

    // One row, or part of one.
    method BuildRow(buffer: string) returns (ok: bool, built: bool, rest: string, ghost o: Outcome)
      requires Valid() && !replyReady && intBuilder.replyReady && buffer != ""
      modifies Repr
      ensures fresh(Repr - old(Repr))
      ensures o == RowOutcome(old(Row(current, Inner())), buffer)
      ensures ok <==> !o.Bad?
      ensures ok ==> Valid() && intBuilder.replyReady && arraySize == old(arraySize)
      ensures ok ==> rest == o.rest && built == o.Ready?
      ensures o.More? ==> !replyReady && reply == old(reply) && Row(current, Inner()) == Some(o.builder)
      ensures o.Ready? ==> current == NoBuilder && reply == Array(old(reply).rows + [o.reply])
      ensures o.Ready? ==> replyReady == (|reply.rows| == arraySize)
      decreases |buffer|, Repr, 1
    {
      o := RowOutcome(Row(current, Inner()), buffer);
      if current == NoBuilder {
        ok := NewRow(buffer[0]);
        if !ok { return false, false, buffer, o; }
        ok, built, rest := PushRow(buffer[1..]);
      } else {
        ok, built, rest := PushRow(buffer);
      }
    }

    method Push(buffer: string) returns (ok: bool, rest: string)
      requires Valid()
      modifies Repr
      ensures fresh(Repr - old(Repr))
      ensures ok <==> Step(old(Now()), buffer).Some?
      ensures ok ==> Valid() && Step(old(Now()), buffer) == Some((Now(), rest))
      decreases |buffer|, Repr, 2
    {
      ok, rest := true, buffer;
      if replyReady { return; }
      if !intBuilder.replyReady {
        var found;
        ok, found, rest := FetchArraySize(buffer);
        if !ok || !found { return; }
      }
      while rest != "" && !replyReady
        invariant Valid() && fresh(Repr - old(Repr)) && intBuilder.replyReady
        invariant ok && |rest| <= |buffer| && (|rest| < |buffer| || Repr == old(Repr))
        invariant Step(Now(), rest) == Step(old(Now()), buffer)
        decreases |rest|
      {
        AfterRow(arraySize, reply.rows, Row(current, Inner()), rest);
        var built;
        ghost var o;
        ok, built, rest, o := BuildRow(rest);
        if !ok || !built { return; }
      }
    }
  }
}
