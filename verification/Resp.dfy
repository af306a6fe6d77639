/**
 Replies, their encoding in the Redis serialization protocol (RESP version 2) and
 the texts the builders take for them: the shapes of the standard, with numbers and
 lines read the way the builders read them. Module Standard has the grammar of the
 standard itself and says where the two differ.
 */
module Resp {
  import opened Decimal
  import opened Wrappers

  const CRLF: string := ['\r', '\n']

  // Bulk sizes are held in a C++ int.
  const INT32_MAX: int := 0x7FFF_FFFF

  datatype Reply =
    | Error(text: string)
    | BulkString(text: string)
    | SimpleString(text: string)
    | Null
    | Integer(value: int)
    | Array(rows: seq<Reply>)

  // A line break starts at position i.
  predicate BreakAt(s: string, i: nat) {
    i + 1 < |s| && s[i] == '\r' && s[i + 1] == '\n'
  }

  ghost predicate OneLine(s: string) {
    forall i: nat :: !BreakAt(s, i)
  }

  // A type byte and one line.
  function TypedLine(id: char, text: string): string {
    [id] + text + CRLF
  }

  // What a server prints for a reply.
  function Encode(r: Reply): string
    decreases r, 1
  {
    match r
    case Error(t) => TypedLine('-', t)
    case SimpleString(t) => TypedLine('+', t)
    case Integer(v) => TypedLine(':', PrintInt(v))
    case BulkString(t) => TypedLine('$', PrintInt(|t|)) + (t + CRLF)
    case Null => TypedLine('$', PrintInt(-1))
    case Array(rows) => TypedLine('*', PrintInt(|rows|)) + EncodeAll(rows)
  }

  function EncodeAll(rs: seq<Reply>): string
    decreases rs, 0
  {
    if rs == [] then "" else Encode(rs[0]) + EncodeAll(rs[1..])
  }

  // The texts that stand for a reply, as a relation.
  ghost predicate Denotes(s: string, r: Reply)
    decreases r, 1
  {
    match r
    case Error(t) => OneLine(t) && s == TypedLine('-', t)
    case SimpleString(t) => OneLine(t) && s == TypedLine('+', t)
    case Integer(v) => exists h :: ParseInt(h) == Some(v) && s == TypedLine(':', h)
    case BulkString(t) =>
      |t| <= INT32_MAX && exists h :: ParseInt(h) == Some(|t|) && s == TypedLine('$', h) + (t + CRLF)
    case Null => exists h :: ParseInt(h) == Some(-1) && (s == TypedLine('$', h) || s == TypedLine('*', h))
    case Array(rows) =>
      exists h, body :: ParseInt(h) == Some(|rows|) && DenotesAll(body, rows) && s == TypedLine('*', h) + body
  }

  ghost predicate DenotesAll(s: string, rs: seq<Reply>)
    decreases rs, 0
  {
    if rs == [] then s == ""
    else exists k :: 0 <= k <= |s| && Denotes(s[..k], rs[0]) && DenotesAll(s[k..], rs[1..])
  }

  // The replies that have a wire form at all.
  ghost predicate Fits(r: Reply)
    decreases r, 1
  {
    match r
    case Error(t) => OneLine(t)
    case SimpleString(t) => OneLine(t)
    case Integer(v) => -INT64_MAX <= v <= INT64_MAX
    case BulkString(t) => |t| <= INT32_MAX
    case Null => true
    case Array(rows) => |rows| <= INT64_MAX && FitAll(rows)
  }

  ghost predicate FitAll(rs: seq<Reply>)
    decreases rs, 0
  {
    rs == [] || (Fits(rs[0]) && FitAll(rs[1..]))
  }

  lemma {:induction false} EncodedDenotes(r: Reply)
    requires Fits(r)
    ensures Denotes(Encode(r), r)
    decreases r, 1
  {
    match r
    case Error(_) =>
    case SimpleString(_) =>
    case Integer(v) => ParsePrinted(v);
    case BulkString(t) => ParsePrinted(|t|);
    case Null => ParsePrinted(-1);
    case Array(rows) =>
      ParsePrinted(|rows|);
      EncodedDenoteAll(rows);
  }

  lemma {:induction false} EncodedDenoteAll(rs: seq<Reply>)
    requires FitAll(rs)
    ensures DenotesAll(EncodeAll(rs), rs)
    decreases rs, 0
  {
    if rs != [] {
      EncodedDenotes(rs[0]);
      EncodedDenoteAll(rs[1..]);
      var k := |Encode(rs[0])|;
      assert EncodeAll(rs)[..k] == Encode(rs[0]) && EncodeAll(rs)[k..] == EncodeAll(rs[1..]);
    }
  }

  lemma {:induction false} DenotedFits(s: string, r: Reply)
    requires Denotes(s, r)
    ensures Fits(r)
    decreases r, 1
  {
    if r.Array? {
      var h, body :| ParseInt(h) == Some(|r.rows|) && DenotesAll(body, r.rows) && s == TypedLine('*', h) + body;
      DenotedFitAll(body, r.rows);
    }
  }

  lemma {:induction false} DenotedFitAll(s: string, rs: seq<Reply>)
    requires DenotesAll(s, rs)
    ensures FitAll(rs)
    decreases rs, 0
  {
    if rs != [] {
      var k :| 0 <= k <= |s| && Denotes(s[..k], rs[0]) && DenotesAll(s[k..], rs[1..]);
      DenotedFits(s[..k], rs[0]);
      DenotedFitAll(s[k..], rs[1..]);
    }
  }

  /** A reply has a wire form exactly when it fits, and then its encoding is one. */
  lemma HasFormIffFits(r: Reply)
    ensures Fits(r) <==> Denotes(Encode(r), r)
    ensures Fits(r) <==> exists s :: Denotes(s, r)
  {
    if Fits(r) {
      EncodedDenotes(r);
    }
    forall s | Denotes(s, r) {
      DenotedFits(s, r);
    }
  }
}
