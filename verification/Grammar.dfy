/**
 The resumable parse agrees with the texts of module Resp: a builder finishes
 exactly on the texts that stand for a reply, and consumes exactly that text.
 */
module Grammar {
  import opened Decimal
  import opened Lists
  import opened Parsing
  import opened Resp
  import opened Wrappers

  lemma BreakAfterLine(h: string, t: string)
    requires OneLine(h)
    ensures FindBreak(h + CRLF + t) == Some(|h|)
    ensures (h + CRLF + t)[..|h|] == h && (h + CRLF + t)[|h| + 2..] == t
  {
    var s := h + CRLF + t;
    assert BreakAt(s, |h|);
    forall j: nat | j < |h| ensures !BreakAt(s, j) {
      assert j + 1 < |h| ==> BreakAt(s, j) == BreakAt(h, j);
    }
  }

  lemma SplitAtBreak(s: string)
    requires FindBreak(s).Some?
    ensures var e := FindBreak(s).value;
            OneLine(s[..e]) && s == s[..e] + CRLF + s[e + 2..]
  {
    var e := FindBreak(s).value;
    assert forall j: nat :: BreakAt(s[..e], j) ==> j < e && BreakAt(s, j);
  }

  lemma NumbersAreOneLine(h: string)
    requires ParseInt(h).Some?
    ensures OneLine(h)
  {
    forall i: nat | i < |h| ensures h[i] != '\r' {
      if !Negative(h) {
        assert h[i] == Magnitude(h)[i];
      } else if i > 0 {
        assert h[i] == Magnitude(h)[i - 1];
      }
    }
  }

  // One type byte and one line, in front of t.
  lemma AfterHeader(id: char, h: string, t: string)
    requires OneLine(h)
    ensures var s := TypedLine(id, h) + t;
            && s != "" && s[0] == id && FindBreak(s[1..]) == Some(|h|)
            && s[1..][..|h|] == h && s[1..][|h| + 2..] == t
  {
    assert (TypedLine(id, h) + t)[1..] == h + CRLF + t;
    BreakAfterLine(h, t);
  }

  lemma StartLine(isError: bool, x: string, t: string)
    requires OneLine(x)
    ensures TypedLine(if isError then '-' else '+', x) + t != ""
    ensures Start(TypedLine(if isError then '-' else '+', x) + t)
         == Ready(if isError then Error(x) else SimpleString(x), t)
  {
    AfterHeader(if isError then '-' else '+', x, t);
    hide TypedLine;
  }

  // A header line with a number, after its type byte.
  lemma AfterNumber(id: char, h: string, t: string)
    requires ParseInt(h).Some?
    ensures var s := TypedLine(id, h) + t;
            s != "" && s[0] == id && ReadHeader(s[1..]) == Size(ParseInt(h).value, t)
  {
    NumbersAreOneLine(h);
    hide ParseInt, TypedLine;
    AfterHeader(id, h, t);
  }

  lemma StartNumber(h: string, t: string)
    requires ParseInt(h).Some?
    ensures TypedLine(':', h) + t != ""
    ensures Start(TypedLine(':', h) + t) == Ready(Integer(ParseInt(h).value), t)
  {
    hide ReadHeader, TypedLine, ParseInt;
    AfterNumber(':', h, t);
  }

  lemma BulkHeader(u: string, n: int, t: string)
    requires ReadHeader(u) == Size(n, t)
    ensures Consume(Bulk(None), u) ==
            if n == -1 then Ready(Null, t) else if 0 <= n <= INT32_MAX then TakePayload(n, t) else Bad
  {
    hide ReadHeader, TakePayload;
  }

  lemma RowsHeader(u: string, n: int, t: string)
    requires ReadHeader(u) == Size(n, t)
    ensures Consume(Rows(None, [], None), u) ==
            if n == -1 then Ready(Null, t)
            else if n == 0 then Ready(Array([]), t)
            else if n > 0 then Consume(Rows(Some(n), [], None), t)
            else Bad
  {
    hide ReadHeader;
  }

  lemma StartBulk(h: string, t: string)
    requires ParseInt(h).Some?
    ensures TypedLine('$', h) + t != ""
    ensures Start(TypedLine('$', h) + t) ==
            var n := ParseInt(h).value;
            if n == -1 then Ready(Null, t)
            else if 0 <= n <= INT32_MAX then TakePayload(n, t)
            else Bad
  {
    hide ReadHeader, TypedLine, ParseInt, TakePayload, Consume;
    AfterNumber('$', h, t);
    BulkHeader((TypedLine('$', h) + t)[1..], ParseInt(h).value, t);
  }

  lemma TakeBulk(x: string, t: string)
    ensures TakePayload(|x|, x + CRLF + t) == Ready(BulkString(x), t)
  {
    var s := x + CRLF + t;
    assert BreakAt(s, |x|) && s[..|x|] == x && s[|x| + 2..] == t;
  }

  lemma StartRows(h: string, t: string)
    requires ParseInt(h).Some?
    ensures TypedLine('*', h) + t != ""
    ensures Start(TypedLine('*', h) + t) ==
            var n := ParseInt(h).value;
            if n == -1 then Ready(Null, t)
            else if n == 0 then Ready(Array([]), t)
            else if n > 0 then Consume(Rows(Some(n), [], None), t)
            else Bad
  {
    hide ReadHeader, TypedLine, ParseInt, Consume;
    AfterNumber('*', h, t);
    RowsHeader((TypedLine('*', h) + t)[1..], ParseInt(h).value, t);
  }

  lemma FirstRow(n: nat, done: seq<Reply>, s: string)
    requires Consume(Rows(Some(n), done, None), s).Ready?
    ensures s != "" && Start(s).Ready?
  {
  }

  lemma ConsumeRow(n: nat, done: seq<Reply>, s: string)
    requires s != "" && Start(s).Ready?
    ensures Consume(Rows(Some(n), done, None), s) ==
            var Ready(r, rest) := Start(s);
            if |done| + 1 == n then Ready(Array(done + [r]), rest)
            else Consume(Rows(Some(n), done + [r], None), rest)
  {
  }

  /** The text of a reply, whatever follows it, makes a fresh builder finish with that reply. */
  lemma {:induction false} Complete(s: string, r: Reply, t: string)
    requires Denotes(s, r)
    ensures s + t != "" && s != "" && Start(s + t) == Ready(r, t)
    decreases r, 1
  {
    hide Consume, Start, ParseInt;
    match r
    case Error(x) => StartLine(true, x, t);
    case SimpleString(x) => StartLine(false, x, t);
    case Integer(v) =>
      var h :| ParseInt(h) == Some(v) && s == TypedLine(':', h);
      StartNumber(h, t);
    case BulkString(x) => CompleteBulk(s, x, t);
    case Null =>
      var h :| ParseInt(h) == Some(-1) && (s == TypedLine('$', h) || s == TypedLine('*', h));
      StartBulk(h, t);
      StartRows(h, t);
    case Array(rows) => CompleteArray(s, rows, t);
  }

  lemma CompleteBulk(s: string, x: string, t: string)
    requires Denotes(s, BulkString(x))
    ensures s != "" && s + t != "" && Start(s + t) == Ready(BulkString(x), t)
  {
    hide Consume, Start, ParseInt, TakePayload;
    var h :| ParseInt(h) == Some(|x|) && s == TypedLine('$', h) + (x + CRLF);
    StartBulk(h, x + CRLF + t);
    TakeBulk(x, t);
    Assoc(TypedLine('$', h), x + CRLF, t);
  }

  lemma FormOfArray(s: string, rows: seq<Reply>) returns (h: string, body: string)
    requires Denotes(s, Array(rows))
    ensures ParseInt(h) == Some(|rows|) && DenotesAll(body, rows) && s == TypedLine('*', h) + body
    ensures rows == [] ==> body == ""
  {
    h, body :| ParseInt(h) == Some(|rows|) && DenotesAll(body, rows) && s == TypedLine('*', h) + body;
  }

  lemma {:induction false} CompleteArray(s: string, rows: seq<Reply>, t: string)
    requires Denotes(s, Array(rows))
    ensures s != "" && s + t != "" && Start(s + t) == Ready(Array(rows), t)
    decreases rows, 2
  {
    hide *;
    var h, body := FormOfArray(s, rows);
    StartRows(h, "");
    StartRows(h, body + t);
    Assoc(TypedLine('*', h), body, t);
    if rows == [] {
      assert body + t == t;
    } else {
      CompleteRows(body, [], rows, t);
      assert [] + rows == rows;
    }
  }

  lemma FirstForm(s: string, rs: seq<Reply>) returns (k: nat)
    requires rs != [] && DenotesAll(s, rs)
    ensures k <= |s| && Denotes(s[..k], rs[0]) && DenotesAll(s[k..], rs[1..])
    ensures |rs| == 1 ==> s[k..] == ""
  {
    k :| 0 <= k <= |s| && Denotes(s[..k], rs[0]) && DenotesAll(s[k..], rs[1..]);
  }

  lemma {:induction false} CompleteRows(s: string, done: seq<Reply>, todo: seq<Reply>, t: string)
    requires todo != [] && DenotesAll(s, todo)
    ensures Consume(Rows(Some(|done| + |todo|), done, None), s + t) == Ready(Array(done + todo), t)
    decreases todo, 0
  {
    hide *;
    var k := FirstForm(s, todo);
    Complete(s[..k], todo[0], s[k..] + t);
    assert s[..k] + (s[k..] + t) == s + t;
    ConsumeRow(|done| + |todo|, done, s + t);
    if |todo| == 1 {
      assert s[k..] + t == t && done + [todo[0]] == done + todo;
    } else {
      CompleteRows(s[k..], done + [todo[0]], todo[1..], t);
      assert done + [todo[0]] + todo[1..] == done + todo;
    }
  }

  // The bytes a finished step took from s.
  function Used(s: string, rest: string): string
    requires |rest| <= |s|
  {
    s[..|s| - |rest|]
  }

  // A finished builder had a whole header line after its type byte.
  lemma HeaderOf(s: string) returns (h: string, body: string)
    requires s != "" && Start(s).Ready?
    ensures OneLine(h) && s == TypedLine(s[0], h) + body
    ensures Create(s[0]).Some?
    ensures !Create(s[0]).value.Line? ==> ParseInt(h).Some?
  {
    NotLineless(Create(s[0]).value, s[1..]);
    hide Consume, Start, ParseInt, Create, OneLine;
    SplitAtBreak(s[1..]);
    var e := FindBreak(s[1..]).value;
    h, body := s[1..][..e], s[1..][e + 2..];
    assert TypedLine(s[0], h) + body == [s[0]] + (h + CRLF + body);
  }

  lemma NotLineless(c: Builder, s: string)
    requires c == Line(true) || c == Line(false) || c == Number || c == Bulk(None) || c == Rows(None, [], None)
    requires Consume(c, s).Ready?
    ensures FindBreak(s).Some?
    ensures !c.Line? ==> ParseInt(s[..FindBreak(s).value]).Some?
  {
  }

  lemma UsedBefore(a: string, rest: string)
    ensures Used(a + rest, rest) == a
  {
  }

  /** Whatever a fresh builder consumed to finish stands for the reply it built. */
  lemma {:induction false} Sound(s: string)
    requires s != "" && Start(s).Ready?
    ensures Denotes(Used(s, Start(s).rest), Start(s).reply)
    decreases |s|, 0
  {
    var h, body := HeaderOf(s);
    hide Consume, Start, ParseInt, OneLine, Used;
    UsedBefore(TypedLine(s[0], h), body);
    match s[0]
    case '$' => SoundBulk(s, h, body);
    case '*' => SoundArray(s, h, body);
    case ':' => StartNumber(h, body);
    case id => StartLine(id == '-', h, body);
  }

  lemma SoundBulk(s: string, h: string, body: string)
    requires s == TypedLine('$', h) + body && ParseInt(h).Some? && s != "" && Start(s).Ready?
    ensures Denotes(Used(s, Start(s).rest), Start(s).reply)
  {
    StartBulk(h, body);
    hide Consume, Start, TypedLine, Used;
    var n, rest := ParseInt(h).value, Start(s).rest;
    if n == -1 {
      UsedBefore(TypedLine('$', h), rest);
    } else {
      BulkPayload(n, body);
      hide TakePayload;
      var x := body[..n];
      Assoc(TypedLine('$', h), x + CRLF, rest);
      UsedBefore(TypedLine('$', h) + (x + CRLF), rest);
    }
  }

  lemma BulkPayload(n: nat, s: string)
    requires TakePayload(n, s).Ready?
    ensures n + 2 <= |s| && s == s[..n] + CRLF + s[n + 2..]
    ensures TakePayload(n, s) == Ready(BulkString(s[..n]), s[n + 2..])
  {
    assert s[n..n + 2] == CRLF;
  }

  lemma ArrayForm(h: string, body: string, rows: seq<Reply>)
    requires ParseInt(h) == Some(|rows|) && DenotesAll(body, rows)
    ensures Denotes(TypedLine('*', h) + body, Array(rows))
  {
  }

  lemma {:induction false} SoundArray(s: string, h: string, body: string)
    requires s == TypedLine('*', h) + body && ParseInt(h).Some? && s != "" && Start(s).Ready?
    ensures Denotes(Used(s, Start(s).rest), Start(s).reply)
    decreases |body|, 2
  {
    StartRows(h, body);
    hide Consume, Start, TypedLine, Used, ParseInt;
    var n, rest := ParseInt(h).value, Start(s).rest;
    if n == -1 {
      UsedBefore(TypedLine('*', h), rest);
    } else {
      var todo, used := [], "";
      if n == 0 {
        assert "" + rest == rest;
      } else {
        todo := SoundRows(n, [], body);
        used := Used(body, rest);
        UsedPlus(body, rest);
      }
      assert [] + todo == todo;
      Assoc(TypedLine('*', h), used, rest);
      UsedBefore(TypedLine('*', h) + used, rest);
      ArrayForm(h, used, todo);
    }
  }

  lemma UsedPlus(s: string, rest: string)
    requires Suffix(rest, s)
    ensures Used(s, rest) + rest == s
  {
  }

  lemma {:induction false} SoundRows(n: nat, done: seq<Reply>, s: string) returns (todo: seq<Reply>)
    requires |done| < n && Consume(Rows(Some(n), done, None), s).Ready?
    ensures |done| + |todo| == n
    ensures var o := Consume(Rows(Some(n), done, None), s);
            o.reply == Array(done + todo) && DenotesAll(Used(s, o.rest), todo)
    decreases |s|, 1
  {
    hide Consume, Start;
    var o := Consume(Rows(Some(n), done, None), s);
    FirstRow(n, done, s);
    var Ready(r, rest) := Start(s);
    Sound(s);
    ConsumeRow(n, done, s);
    if |done| + 1 == n {
      todo := [r];
      DenotesCons(s, rest, rest, r, []);
    } else {
      var tail := SoundRows(n, done + [r], rest);
      todo := [r] + tail;
      assert done + [r] + tail == done + todo;
      DenotesCons(s, rest, o.rest, r, tail);
    }
  }

  lemma DenotesCons(s: string, mid: string, rest: string, r: Reply, tail: seq<Reply>)
    requires Suffix(mid, s) && Suffix(rest, mid)
    requires Denotes(Used(s, mid), r) && DenotesAll(Used(mid, rest), tail)
    ensures DenotesAll(Used(s, rest), [r] + tail)
  {
    var u, k := Used(s, rest), |s| - |mid|;
    assert u[..k] == Used(s, mid) && u[k..] == Used(mid, rest);
    assert ([r] + tail)[1..] == tail;
  }

  /** A fresh builder finishes with r, leaving t, exactly when r's text stands in front of t. */
  lemma StartExact(s: string, r: Reply, t: string)
    requires s != ""
    ensures Start(s) == Ready(r, t) <==> Suffix(t, s) && Denotes(Used(s, t), r)
  {
    hide Consume, Start;
    if Start(s) == Ready(r, t) {
      Sound(s);
    }
    if Suffix(t, s) && Denotes(Used(s, t), r) {
      Complete(Used(s, t), r, t);
      assert Used(s, t) + t == s;
    }
  }

  /** No reply's text is a prefix of another's, and none stands for two replies. */
  lemma PrefixFree(s: string, t: string, r: Reply, r': Reply)
    requires Denotes(s, r) && Denotes(s + t, r')
    ensures t == "" && r == r'
  {
    Complete(s, r, t);
    Complete(s + t, r', "");
    assert s + t + "" == s + t;
  }

  /** Encoding then building gives the reply back, in front of any bytes, exactly for replies that fit. */
  lemma RoundTrip(r: Reply, t: string)
    ensures Encode(r) + t != ""
    ensures Start(Encode(r) + t) == Ready(r, t) <==> Fits(r)
  {
    HasFormIffFits(r);
    var s := Encode(r) + t;
    assert Used(s, t) == Encode(r) && Suffix(t, s);
    StartExact(s, r, t);
  }
}
