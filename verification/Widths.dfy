/**
 The widths and spellings of the protocol with the numbers and bytes written out:
 what a 64-bit accumulator and a C++ int hold, and what goes over the wire.
 */
module Widths {
  import opened Commands
  import opened Decimal
  import opened Grammar
  import opened Parsing
  import opened ReplyStream
  import opened Resp
  import opened Wrappers

  // --- Integers, sizes and counts ----------------------------------------------

  lemma AllInOne(s: string, chunks: seq<string>)
    requires Join(chunks) == s
    ensures FeedAll(INITIAL, chunks) == Feed(INITIAL, s)
  {
    assert Settled(INITIAL);
    ChunksDoNotMatter(INITIAL, chunks);
  }

  lemma PrintedHeader(v: int)
    ensures OneLine(PrintInt(v))
  {
    var m := if v < 0 then -v else v;
    PrintIsDigits(m);
    forall i: nat | i < |PrintInt(v)| ensures PrintInt(v)[i] != '\r' {
      assert v >= 0 ==> IsDigit(Print(m)[i]);
      assert v < 0 && i > 0 ==> IsDigit(Print(m)[i - 1]);
    }
  }

  // The number a header line announces to the builder that reads it.
  lemma Announced(id: char, v: int, rest: string)
    ensures var s := TypedLine(id, PrintInt(v)) + rest;
            && s != "" && s[0] == id
            && ReadHeader(s[1..]) == if -9223372036854775807 <= v <= 9223372036854775807 then Size(v, rest) else Refused
  {
    PrintedHeader(v);
    ParsePrinted(v);
    AfterHeader(id, PrintInt(v), rest);
  }

  lemma RefusedAtOnce(s: string)
    requires s != "" && Start(s).Bad?
    ensures Feed(INITIAL, s) == Failed([])
  {
    assert "" + s == s;
  }

  /**
   Under any chunking an integer is read as itself up to nineteen digits and the
   magnitude 9223372036854775807, and refused beyond, -9223372036854775808 included.
   */
  lemma IntegerReadIff(v: int, chunks: seq<string>)
    requires Join(chunks) == ":" + PrintInt(v) + "\r\n"
    ensures FeedAll(INITIAL, chunks) ==
              if -9223372036854775807 <= v <= 9223372036854775807 then Fine(Stream("", None, [Integer(v)]))
              else Failed([])
  {
    var s := TypedLine(':', PrintInt(v));
    assert Join(chunks) == s && s + "" == s;
    AllInOne(s, chunks);
    Announced(':', v, "");
    if -9223372036854775807 <= v <= 9223372036854775807 {
      assert Start(s) == Ready(Integer(v), "");
      DrainOne(s, [], Integer(v), "");
      assert "" + s == s && [] + [Integer(v)] == [Integer(v)];
    } else {
      RefusedAtOnce(s);
    }
  }

  lemma StartBy(s: string)
    requires s != "" && Create(s[0]).Some?
    ensures Start(s) == Consume(Create(s[0]).value, s[1..])
  {
    hide Consume;
  }

  lemma DrainNothing(b: Builder, s: string, rest: string)
    requires s != "" && Start(s) == More(b, rest)
    ensures Feed(INITIAL, s) == Fine(Stream(rest, Some(b), []))
  {
    hide Start;
    assert "" + s == s;
  }

  lemma DrainJust(s: string, r: Reply)
    requires s != "" && Start(s) == Ready(r, "")
    ensures Feed(INITIAL, s) == Fine(Stream("", None, [r]))
  {
    hide Start;
    DrainOne(s, [], r, "");
    assert "" + s == s && [] + [r] == [r];
  }

  /** A size up to 2147483647 is waited for or filled; a larger one, or one below -1, is refused before its payload. */
  lemma BulkSizeIff(n: int, rest: string)
    ensures n < -1 || n > 2147483647 ==> Feed(INITIAL, "$" + PrintInt(n) + "\r\n" + rest) == Failed([])
    ensures 0 <= n <= 2147483647 && |rest| < n + 2 ==>
              Feed(INITIAL, "$" + PrintInt(n) + "\r\n" + rest) == Fine(Stream(rest, Some(Bulk(Some(n))), []))
    ensures Feed(INITIAL, "$" + PrintInt(-1) + "\r\n") == Fine(Stream("", None, [Null]))
  {
    var s, t := TypedLine('$', PrintInt(n)) + rest, TypedLine('$', PrintInt(-1)) + "";
    assert s == "$" + PrintInt(n) + "\r\n" + rest && t == "$" + PrintInt(-1) + "\r\n";
    hide PrintInt, TypedLine, ReadHeader, Feed, Start, Consume;
    Announced('$', n, rest);
    Announced('$', -1, "");
    StartBy(s);
    StartBy(t);
    BulkStep(s[1..]);
    BulkStep(t[1..]);
    if n < -1 || n > 2147483647 {
      RefusedAtOnce(s);
    } else if n >= 0 && |rest| < n + 2 {
      DrainNothing(Bulk(Some(n)), s, rest);
    }
    DrainJust(t, Null);
  }

  /** Any payload of at most 2147483647 bytes comes back under any chunking; a longer one is refused. */
  lemma BulkReadIff(x: string, chunks: seq<string>)
    requires Join(chunks) == "$" + PrintInt(|x|) + "\r\n" + x + "\r\n"
    ensures FeedAll(INITIAL, chunks) ==
              if |x| <= 2147483647 then Fine(Stream("", None, [BulkString(x)])) else Failed([])
  {
    var r := BulkString(x);
    assert EncodeAll([r]) == Encode(r) + EncodeAll([r][1..]);
    assert Join(chunks) == EncodeAll([r]);
    if |x| <= 2147483647 {
      assert FitAll([r]);
      StreamRoundTrip([r], chunks);
    } else {
      AllInOne(Join(chunks), chunks);
      BulkSizeIff(|x|, x + "\r\n");
      assert Join(chunks) == "$" + PrintInt(|x|) + "\r\n" + (x + "\r\n");
    }
  }

  /** A count of rows up to 9223372036854775807 is accepted, a larger one or one below -1 refused. */
  lemma CountIff(n: int)
    ensures Feed(INITIAL, "*" + PrintInt(n) + "\r\n") ==
              if n < -1 || n > 9223372036854775807 then Failed([])
              else if n == -1 then Fine(Stream("", None, [Null]))
              else if n == 0 then Fine(Stream("", None, [Array([])]))
              else Fine(Stream("", Some(Rows(Some(n), [], None)), []))
  {
    var s := TypedLine('*', PrintInt(n)) + "";
    assert s == "*" + PrintInt(n) + "\r\n";
    hide PrintInt, TypedLine, ReadHeader, Feed, Start, Consume;
    Announced('*', n, "");
    StartBy(s);
    RowsStep(Rows(None, [], None), s[1..]);
    if n < -1 || n > 9223372036854775807 {
      RefusedAtOnce(s);
    } else if n > 0 {
      NothingToDo(Rows(Some(n), [], None));
      DrainNothing(Rows(Some(n), [], None), s, "");
    } else {
      DrainJust(s, if n == 0 then Array([]) else Null);
    }
  }

  // --- Spellings -----------------------------------------------------------------

  /** Numbers are decimal, most significant digit first, the digits in their usual order. */
  lemma NumbersAreDecimal(n: nat, d: nat)
    requires d < 10
    ensures PrintInt(d) == ["0123456789"[d]]
    ensures n > 0 ==> PrintInt(10 * n + d) == PrintInt(n) + ["0123456789"[d]]
    ensures n > 0 ==> PrintInt(-(n as int)) == "-" + PrintInt(n)
    ensures ParseInt(["0123456789"[d]]) == Some(d)
  {
    assert DigitChar(d) == "0123456789"[d];
    ParsePrinted(d);
  }

  lemma SmallPrint(d: nat)
    requires d < 10
    ensures PrintInt(d) == ["0123456789"[d]] && (d > 0 ==> PrintInt(-(d as int)) == "-" + ["0123456789"[d]])
  {
    NumbersAreDecimal(1, d);
  }

  lemma EncodedOne(r: Reply)
    ensures EncodeAll([r]) == Encode(r)
  {
    assert Encode(r) + "" == Encode(r);
  }

  lemma EncodedCons(r: Reply, rs: seq<Reply>)
    ensures EncodeAll([r] + rs) == Encode(r) + EncodeAll(rs)
  {
    assert ([r] + rs)[1..] == rs;
  }

  /** One reply of each type as it stands on the wire. */
  lemma WireForms()
    ensures Encode(Error("ERR")) == "-ERR\r\n" && Encode(SimpleString("OK")) == "+OK\r\n"
    ensures Encode(Integer(-7)) == ":-7\r\n" && Encode(BulkString("a\r\n")) == "$3\r\na\r\n\r\n"
    ensures Encode(Null) == "$-1\r\n" && Encode(Array([Integer(-7), Null])) == "*2\r\n:-7\r\n$-1\r\n"
  {
    SmallPrint(7);
    SmallPrint(3);
    SmallPrint(2);
    SmallPrint(1);
    hide PrintInt;
    EncodedOne(Null);
    EncodedCons(Integer(-7), [Null]);
    assert [Integer(-7)] + [Null] == [Integer(-7), Null];
  }

  // One reply of each type, and their bytes.
  const SAMPLES: seq<Reply> := [Error("ERR"), SimpleString("OK"), Integer(-7), BulkString("a\r\n"), Null,
                               Array([Integer(-7), Null])]

  lemma SampleBytes()
    ensures EncodeAll(SAMPLES) ==
              "-ERR\r\n" + ("+OK\r\n" + (":-7\r\n" + ("$3\r\na\r\n\r\n" + ("$-1\r\n" + "*2\r\n:-7\r\n$-1\r\n"))))
  {
    WireForms();
    hide Encode, EncodeAll;
    var rs := SAMPLES;
    assert rs == [rs[0]] + rs[1..] && rs[1..] == [rs[1]] + rs[2..] && rs[2..] == [rs[2]] + rs[3..];
    assert rs[3..] == [rs[3]] + rs[4..] && rs[4..] == [rs[4]] + rs[5..] && rs[5..] == [rs[5]];
    EncodedCons(rs[0], rs[1..]);
    EncodedCons(rs[1], rs[2..]);
    EncodedCons(rs[2], rs[3..]);
    EncodedCons(rs[3], rs[4..]);
    EncodedCons(rs[4], rs[5..]);
    EncodedOne(rs[5]);
  }

  lemma SamplesFit()
    ensures FitAll(SAMPLES)
  {
    FitAllMeans(SAMPLES);
    FitAllMeans([Integer(-7), Null]);
    assert Fits(Integer(-7)) && Fits(Null);
    assert OneLine("ERR") && OneLine("OK");
  }

  /** Those bytes are read as those replies under any chunking. */
  lemma SamplesRead(chunks: seq<string>)
    requires Join(chunks) ==
               "-ERR\r\n" + ("+OK\r\n" + (":-7\r\n" + ("$3\r\na\r\n\r\n" + ("$-1\r\n" + "*2\r\n:-7\r\n$-1\r\n"))))
    ensures FeedAll(INITIAL, chunks) ==
              Fine(Stream("", None, [Error("ERR"), SimpleString("OK"), Integer(-7), BulkString("a\r\n"), Null,
                                     Array([Integer(-7), Null])]))
  {
    SampleBytes();
    SamplesFit();
    hide EncodeAll, FitAll, FeedAll, Join;
    StreamRoundTrip(SAMPLES, chunks);
  }

  lemma ShortBulk(x: string)
    requires |x| < 10
    ensures Encode(BulkString(x)) == "$" + ["0123456789"[|x|]] + "\r\n" + x + "\r\n"
  {
    SmallPrint(|x|);
    hide PrintInt;
  }

  /** A command as it stands on the wire: the number of words, then each word behind its length. */
  lemma CommandOnTheWire(x: string, y: string)
    requires |x| < 10 && |y| < 10
    ensures BuildCommand([x, y]) == "*2\r\n" + ("$" + ["0123456789"[|x|]] + "\r\n" + x + "\r\n"
                                                + ("$" + ["0123456789"[|y|]] + "\r\n" + y + "\r\n"))
  {
    SmallPrint(2);
    ShortBulk(x);
    ShortBulk(y);
    var rs := Bulks([x, y]);
    assert rs == [BulkString(x)] + [BulkString(y)];
    hide PrintInt, EncodeAll;
    EncodedCons(BulkString(x), [BulkString(y)]);
    EncodedOne(BulkString(y));
    assert TypedLine('*', "2") == "*2\r\n";
  }
}
