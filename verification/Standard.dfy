/**
 The grammar of the Redis serialization protocol (RESP version 2) written down on
 its own, with four switches where readers of it differ, and what the builders read
 in its terms.
 */
module Standard {
  import opened Commands
  import opened Decimal
  import opened Grammar
  import opened Lists
  import opened Parsing
  import opened ReplyStream
  import opened Resp
  import opened Wrappers

  // Whether an integer may have a plus sign, a number no digits at all, a length of
  // zero a minus sign and the length -1 leading zeros, a line a lone CR or LF.
  datatype Dialect = Dialect(plus: bool, empty: bool, looseLength: bool, loneBreak: bool)

  const STANDARD := Dialect(true, false, false, false)
  const BUILDERS := Dialect(false, true, true, true)

  // What every dialect has.
  const STRICT := Dialect(false, false, false, false)

  function Both(d: Dialect, e: Dialect): Dialect {
    Dialect(d.plus && e.plus, d.empty && e.empty, d.looseLength && e.looseLength, d.loneBreak && e.loneBreak)
  }

  predicate Allows(e: Dialect, d: Dialect) {
    (d.plus ==> e.plus) && (d.empty ==> e.empty) && (d.looseLength ==> e.looseLength) && (d.loneBreak ==> e.loneBreak)
  }

  // --- Numbers, lengths and lines ------------------------------------------------

  predicate Positive(h: string) {
    h != "" && h[0] == '+'
  }

  function Digits(h: string): string {
    if Positive(h) || Negative(h) then h[1..] else h
  }

  // An optional sign and digits, worth v.
  predicate Numeral(d: Dialect, h: string, v: int) {
    && AllDigits(Digits(h))
    && v == (if Negative(h) then -(Value(Digits(h)) as int) else Value(Digits(h)))
    && (Positive(h) ==> d.plus)
    && (Digits(h) == "" ==> d.empty)
  }

  predicate Length(d: Dialect, h: string, n: nat) {
    Numeral(d.(plus := false), h, n) && (Negative(h) ==> d.looseLength)
  }

  predicate NullLength(d: Dialect, h: string) {
    if d.looseLength then Numeral(d.(plus := false), h, -1) else h == "-1"
  }

  predicate Line(d: Dialect, x: string) {
    if d.loneBreak then FindBreak(x).None? else '\r' !in x && '\n' !in x
  }

  // --- Texts of replies -------------------------------------------------------------

  // A first line with this type byte that can start a text of r.
  predicate Head(d: Dialect, id: char, h: string, r: Reply) {
    match r
    case Error(x) => id == '-' && h == x && Line(d, x)
    case SimpleString(x) => id == '+' && h == x && Line(d, x)
    case Integer(v) => id == ':' && Numeral(d, h, v)
    case BulkString(x) => id == '$' && Length(d, h, |x|)
    case Null => (id == '$' || id == '*') && NullLength(d, h)
    case Array(rows) => id == '*' && Length(d, h, |rows|)
  }

  ghost predicate Text(d: Dialect, s: string, r: Reply)
    decreases r, 1
  {
    exists id, h, body :: Head(d, id, h, r) && Body(d, body, r) && s == TypedLine(id, h) + body
  }

  // What follows the first line.
  ghost predicate Body(d: Dialect, body: string, r: Reply)
    decreases r, 0
  {
    match r
    case BulkString(x) => body == x + CRLF
    case Array(rows) => TextAll(d, body, rows)
    case _ => body == ""
  }

  ghost predicate TextAll(d: Dialect, s: string, rs: seq<Reply>)
    decreases rs, 0
  {
    if rs == [] then s == ""
    else exists a, b :: Text(d, a, rs[0]) && TextAll(d, b, rs[1..]) && s == a + b
  }

  // --- Numbers as the integer builder reads them ------------------------------------

  /**
   The integer builder takes a line for v exactly if v fits and the line is an
   optional minus sign and digits worth v, possibly none.
   */
  lemma ParseIntExactly(h: string, v: int)
    ensures ParseInt(h) == Some(v) <==> -INT64_MAX <= v <= INT64_MAX && Numeral(BUILDERS, h, v)
  {
    if Positive(h) {
      assert !IsDigit(h[0]);
    }
  }

  // The standard's integers, spelled out.
  ghost predicate StandardInteger(h: string, v: int) {
    exists digits: string :: digits != "" && AllDigits(digits) && Spells(h, v, digits)
  }

  predicate Spells(h: string, v: int, digits: string)
    requires AllDigits(digits)
  {
    (v == Value(digits) && (h == digits || h == "+" + digits)) || (v == -(Value(digits) as int) && h == "-" + digits)
  }

  lemma StandardIntegerIff(h: string, v: int)
    ensures StandardInteger(h, v) <==> Numeral(STANDARD, h, v)
  {
    if Numeral(STANDARD, h, v) {
      var digits := Digits(h);
      assert h == digits || h == [h[0]] + digits;
      assert Spells(h, v, digits);
    }
    if digits: string :| digits != "" && AllDigits(digits) && Spells(h, v, digits) {
      assert IsDigit(digits[0]);
      assert Digits(h) == digits;
    }
  }

  /** Against the standard's integers: a plus sign is refused, a line without digits is worth zero. */
  lemma ReadsStandardIntegersIff(h: string, v: int)
    ensures ParseInt(h) == Some(v) <==>
              && -INT64_MAX <= v <= INT64_MAX
              && if h == "" || h == "-" then v == 0 else StandardInteger(h, v) && h[0] != '+'
  {
    ParseIntExactly(h, v);
    StandardIntegerIff(h, v);
    assert Digits(h) == "" <==> h == "" || h == "-" || h == "+";
    if Positive(h) {
      assert !Negative(h);
    }
  }

  // --- The builders read one of the dialects --------------------------------------------

  lemma LineIff(x: string)
    ensures Line(BUILDERS, x) <==> OneLine(x)
  {
  }

  lemma LengthIff(h: string, n: nat)
    ensures ParseInt(h) == Some(n) <==> n <= INT64_MAX && Length(BUILDERS, h, n)
  {
    ParseIntExactly(h, n);
  }

  lemma NullLengthIff(h: string)
    ensures ParseInt(h) == Some(-1) <==> NullLength(BUILDERS, h)
  {
    ParseIntExactly(h, -1);
  }

  lemma TextOf(d: Dialect, id: char, h: string, body: string, r: Reply)
    requires Head(d, id, h, r) && Body(d, body, r)
    ensures Text(d, TypedLine(id, h) + body, r)
  {
  }

  lemma ShortTextOf(d: Dialect, id: char, h: string, r: Reply)
    requires Head(d, id, h, r) && Body(d, "", r)
    ensures Text(d, TypedLine(id, h), r)
  {
    TextOf(d, id, h, "", r);
    assert TypedLine(id, h) + "" == TypedLine(id, h);
  }

  lemma {:induction false} DenotedIsText(s: string, r: Reply)
    requires Denotes(s, r)
    ensures Text(BUILDERS, s, r)
    decreases r, 1
  {
    hide ParseInt, Length, NullLength, Numeral, Line, Text;
    match r
    case Error(x) =>
      LineIff(x);
      ShortTextOf(BUILDERS, '-', x, r);
    case SimpleString(x) =>
      LineIff(x);
      ShortTextOf(BUILDERS, '+', x, r);
    case Integer(v) =>
      var h :| ParseInt(h) == Some(v) && s == TypedLine(':', h);
      ParseIntExactly(h, v);
      ShortTextOf(BUILDERS, ':', h, r);
    case BulkString(x) =>
      var h :| ParseInt(h) == Some(|x|) && s == TypedLine('$', h) + (x + CRLF);
      LengthIff(h, |x|);
      TextOf(BUILDERS, '$', h, x + CRLF, r);
    case Null =>
      var h :| ParseInt(h) == Some(-1) && (s == TypedLine('$', h) || s == TypedLine('*', h));
      NullLengthIff(h);
      ShortTextOf(BUILDERS, s[0], h, r);
    case Array(rows) =>
      var h, body :| ParseInt(h) == Some(|rows|) && DenotesAll(body, rows) && s == TypedLine('*', h) + body;
      LengthIff(h, |rows|);
      DenotedAreTexts(body, rows);
      TextOf(BUILDERS, '*', h, body, r);
  }

  lemma {:induction false} DenotedAreTexts(s: string, rs: seq<Reply>)
    requires DenotesAll(s, rs)
    ensures TextAll(BUILDERS, s, rs)
    decreases rs, 0
  {
    if rs != [] {
      var k := FirstForm(s, rs);
      DenotedIsText(s[..k], rs[0]);
      DenotedAreTexts(s[k..], rs[1..]);
      assert s == s[..k] + s[k..];
    }
  }

  lemma {:induction false} TextIsDenoted(s: string, r: Reply)
    requires Text(BUILDERS, s, r) && Fits(r)
    ensures Denotes(s, r)
    decreases r, 1
  {
    hide ParseInt, Length, NullLength, Numeral, Line, Text;
    var id, h, body := Split(BUILDERS, s, r);
    assert body == "" ==> s == TypedLine(id, h);
    match r
    case Error(x) => LineIff(x);
    case SimpleString(x) => LineIff(x);
    case Integer(v) => ParseIntExactly(h, v);
    case BulkString(x) => LengthIff(h, |x|);
    case Null => NullLengthIff(h);
    case Array(rows) =>
      LengthIff(h, |rows|);
      TextsAreDenoted(body, rows);
  }

  lemma Split(d: Dialect, s: string, r: Reply) returns (id: char, h: string, body: string)
    requires Text(d, s, r)
    ensures Head(d, id, h, r) && Body(d, body, r) && s == TypedLine(id, h) + body
  {
    id, h, body :| Head(d, id, h, r) && Body(d, body, r) && s == TypedLine(id, h) + body;
  }

  lemma {:induction false} TextsAreDenoted(s: string, rs: seq<Reply>)
    requires TextAll(BUILDERS, s, rs) && FitAll(rs)
    ensures DenotesAll(s, rs)
    decreases rs, 0
  {
    if rs != [] {
      var a, b :| Text(BUILDERS, a, rs[0]) && TextAll(BUILDERS, b, rs[1..]) && s == a + b;
      TextIsDenoted(a, rs[0]);
      TextsAreDenoted(b, rs[1..]);
      assert s[..|a|] == a && s[|a|..] == b;
    }
  }

  /** What the builders take for r is exactly the texts of r in their dialect, if r fits. */
  lemma DenotesIff(s: string, r: Reply)
    ensures Denotes(s, r) <==> Fits(r) && Text(BUILDERS, s, r)
  {
    if Denotes(s, r) {
      DenotedIsText(s, r);
      DenotedFits(s, r);
    }
    if Fits(r) && Text(BUILDERS, s, r) {
      TextIsDenoted(s, r);
    }
  }

  // --- One text in two dialects ------------------------------------------------------------

  lemma HeadIsOneLine(d: Dialect, id: char, h: string, r: Reply)
    requires Head(d, id, h, r)
    ensures OneLine(h)
  {
    if r.Error? || r.SimpleString? {
      assert FindBreak(h).None?;
    } else {
      assert AllDigits(Digits(h));
      forall i: nat | i < |h| ensures h[i] != '\r' {
        assert i > 0 ==> h[i] == h[1..][i - 1];
        assert (Positive(h) || Negative(h)) && i > 0 ==> IsDigit(Digits(h)[i - 1]);
        assert !(Positive(h) || Negative(h)) ==> IsDigit(Digits(h)[i]);
      }
    }
  }

  // Two replies whose texts start alike: only what follows the first line can differ.
  predicate Alike(r: Reply, q: Reply) {
    match r
    case BulkString(x) => q.BulkString? && |x| == |q.text|
    case Array(rows) => q.Array? && |rows| == |q.rows|
    case _ => r == q
  }

  lemma HeadsMeet(d: Dialect, e: Dialect, id: char, h: string, r: Reply, q: Reply)
    requires Head(d, id, h, r) && Head(e, id, h, q)
    ensures Alike(r, q) && Head(Both(d, e), id, h, r)
  {
    hide FindBreak;
  }

  lemma SplitsMeet(id: char, h: string, a: string, jd: char, k: string, b: string)
    requires OneLine(h) && OneLine(k) && TypedLine(id, h) + a == TypedLine(jd, k) + b
    ensures id == jd && h == k && a == b
  {
    AfterHeader(id, h, a);
    AfterHeader(jd, k, b);
    hide FindBreak, TypedLine;
  }

  /**
   Two texts that start the same bytes are the same text of the same reply, even when
   taken from two dialects, and then a text of what the dialects share.
   */
  lemma {:induction false} TextsMeet(d: Dialect, e: Dialect, s: string, r: Reply, t: string, q: Reply,
                                     u: string, v: string)
    requires Text(d, s, r) && Text(e, t, q) && s + u == t + v
    ensures s == t && u == v && r == q && Text(Both(d, e), s, r)
    decreases r, 1
  {
    hide Text, Head;
    var id, h, a := Split(d, s, r);
    var jd, k, b := Split(e, t, q);
    HeadIsOneLine(d, id, h, r);
    HeadIsOneLine(e, jd, k, q);
    Assoc(TypedLine(id, h), a, u);
    Assoc(TypedLine(jd, k), b, v);
    SplitsMeet(id, h, a + u, jd, k, b + v);
    HeadsMeet(d, e, id, h, r, q);
    BodiesMeet(d, e, a, r, b, q, u, v);
    TextOf(Both(d, e), id, h, a, r);
  }

  lemma {:induction false} BodiesMeet(d: Dialect, e: Dialect, a: string, r: Reply, b: string, q: Reply,
                                      u: string, v: string)
    requires Body(d, a, r) && Body(e, b, q) && Alike(r, q) && a + u == b + v
    ensures a == b && u == v && r == q && Body(Both(d, e), a, r)
    decreases r, 0
  {
    match r
    case BulkString(x) =>
      SameLength(a, b, u, v);
      SameLength(x, q.text, CRLF, CRLF);
    case Array(rows) => AllMeet(d, e, a, rows, b, q.rows, u, v);
    case _ => assert "" + u == u && "" + v == v;
  }

  lemma {:induction false} AllMeet(d: Dialect, e: Dialect, s: string, rs: seq<Reply>, t: string, qs: seq<Reply>,
                                   u: string, v: string)
    requires TextAll(d, s, rs) && TextAll(e, t, qs) && |rs| == |qs| && s + u == t + v
    ensures s == t && u == v && rs == qs && TextAll(Both(d, e), s, rs)
    decreases rs, 0
  {
    if rs == [] {
      assert "" + u == u && "" + v == v;
    } else {
      var a, b :| Text(d, a, rs[0]) && TextAll(d, b, rs[1..]) && s == a + b;
      var a', b' :| Text(e, a', qs[0]) && TextAll(e, b', qs[1..]) && t == a' + b';
      Assoc(a, b, u);
      Assoc(a', b', v);
      TextsMeet(d, e, a, rs[0], a', qs[0], b + u, b' + v);
      AllMeet(d, e, b, rs[1..], b', qs[1..], u, v);
    }
  }

  /** A text of one dialect is one of any that allows more. */
  lemma {:induction false} TextGrows(d: Dialect, e: Dialect, s: string, r: Reply)
    requires Text(d, s, r) && Allows(e, d)
    ensures Text(e, s, r)
    decreases r, 1
  {
    hide Text;
    var id, h, body := Split(d, s, r);
    HeadGrows(d, e, id, h, r);
    if r.Array? {
      TextsGrow(d, e, body, r.rows);
    }
    TextOf(e, id, h, body, r);
  }

  lemma HeadGrows(d: Dialect, e: Dialect, id: char, h: string, r: Reply)
    requires Head(d, id, h, r) && Allows(e, d)
    ensures Head(e, id, h, r)
  {
    if r.Null? && h == "-1" {
      MinusOne();
    }
    if r.Error? || r.SimpleString? {
      assert FindBreak(h).Some? ==> '\r' in h;
    }
  }

  lemma MinusOne()
    ensures Numeral(STRICT, "-1", -1)
  {
    assert Digits("-1") == "1" && "1"[..0] == "";
  }

  lemma {:induction false} TextsGrow(d: Dialect, e: Dialect, s: string, rs: seq<Reply>)
    requires TextAll(d, s, rs) && Allows(e, d)
    ensures TextAll(e, s, rs)
    decreases rs, 0
  {
    if rs != [] {
      var a, b :| Text(d, a, rs[0]) && TextAll(d, b, rs[1..]) && s == a + b;
      TextGrows(d, e, a, rs[0]);
      TextsGrow(d, e, b, rs[1..]);
    }
  }

  // --- Against the standard -----------------------------------------------------------------

  lemma DenotesAllIff(s: string, rs: seq<Reply>)
    ensures DenotesAll(s, rs) <==> FitAll(rs) && TextAll(BUILDERS, s, rs)
  {
    if DenotesAll(s, rs) {
      DenotedAreTexts(s, rs);
      DenotedFitAll(s, rs);
    }
    if FitAll(rs) && TextAll(BUILDERS, s, rs) {
      TextsAreDenoted(s, rs);
    }
  }

  lemma TextNotEmpty(d: Dialect, s: string, r: Reply)
    requires Text(d, s, r)
    ensures s != ""
  {
    hide Text;
    var id, h, body := Split(d, s, r);
  }

  lemma {:induction false} ListsMeet(d: Dialect, e: Dialect, s: string, rs: seq<Reply>, qs: seq<Reply>)
    requires TextAll(d, s, rs) && TextAll(e, s, qs)
    ensures rs == qs && TextAll(Both(d, e), s, rs)
    decreases |rs|
  {
    hide Text;
    if rs != [] {
      var a, b :| Text(d, a, rs[0]) && TextAll(d, b, rs[1..]) && s == a + b;
      TextNotEmpty(d, a, rs[0]);
      var a', b' :| Text(e, a', qs[0]) && TextAll(e, b', qs[1..]) && s == a' + b';
      TextsMeet(d, e, a, rs[0], a', qs[0], b, b');
      ListsMeet(d, e, b, rs[1..], qs[1..]);
    } else if qs != [] {
      var a', b' :| Text(e, a', qs[0]) && TextAll(e, b', qs[1..]) && s == a' + b';
      TextNotEmpty(e, a', qs[0]);
    }
  }

  /**
   Replies written as the standard says are read, as those replies and no others,
   exactly if all of them fit and no integer is written with a plus sign.
   */
  lemma StandardReadIff(s: string, rs: seq<Reply>, qs: seq<Reply>)
    requires TextAll(STANDARD, s, rs)
    ensures Feed(INITIAL, s) == Fine(Stream("", None, qs)) <==> qs == rs && FitAll(rs) && TextAll(STRICT, s, rs)
  {
    AcceptsExactly(s, qs);
    DenotesAllIff(s, qs);
    hide Feed, TextAll, FitAll, DenotesAll;
    if TextAll(BUILDERS, s, qs) {
      ListsMeet(STANDARD, BUILDERS, s, rs, qs);
    }
    if TextAll(STRICT, s, rs) {
      TextsGrow(STRICT, BUILDERS, s, rs);
    }
  }

  /** Whatever is read and written as the standard says is so already without a plus sign. */
  lemma ReadIsStandardIff(s: string, rs: seq<Reply>)
    requires Feed(INITIAL, s) == Fine(Stream("", None, rs))
    ensures TextAll(STANDARD, s, rs) <==> TextAll(STRICT, s, rs)
  {
    hide Feed, TextAll;
    if TextAll(STANDARD, s, rs) {
      StandardReadIff(s, rs, rs);
    }
    if TextAll(STRICT, s, rs) {
      TextsGrow(STRICT, STANDARD, s, rs);
    }
  }

  // --- What is written ----------------------------------------------------------------------

  // Every line of the reply is one the standard allows.
  predicate Plain(r: Reply)
    decreases r, 1
  {
    match r
    case Error(x) => Line(STRICT, x)
    case SimpleString(x) => Line(STRICT, x)
    case Array(rows) => AllPlain(rows)
    case _ => true
  }

  predicate AllPlain(rs: seq<Reply>)
    decreases rs, 0
  {
    rs == [] || (Plain(rs[0]) && AllPlain(rs[1..]))
  }

  lemma PrintedIsNumeral(v: int)
    ensures Numeral(STRICT, PrintInt(v), v)
  {
    var m := if v < 0 then -v else v;
    PrintIsDigits(m);
    assert IsDigit(Print(m)[0]);
    assert Digits(PrintInt(v)) == Print(m);
  }

  lemma {:induction false} EncodedIsText(r: Reply)
    requires Plain(r)
    ensures Text(STRICT, Encode(r), r)
    decreases r, 1
  {
    hide Text, Numeral, TypedLine, PrintInt, Line;
    match r
    case Error(x) => ShortTextOf(STRICT, '-', x, r);
    case SimpleString(x) => ShortTextOf(STRICT, '+', x, r);
    case Integer(v) =>
      PrintedIsNumeral(v);
      ShortTextOf(STRICT, ':', PrintInt(v), r);
    case BulkString(x) =>
      PrintedIsLength(|x|);
      TextOf(STRICT, '$', PrintInt(|x|), x + CRLF, r);
    case Null =>
      PrintedMinusOne();
      ShortTextOf(STRICT, '$', PrintInt(-1), r);
    case Array(rows) =>
      PrintedIsLength(|rows|);
      EncodedAreTexts(rows);
      TextOf(STRICT, '*', PrintInt(|rows|), EncodeAll(rows), r);
  }

  lemma PrintedIsLength(n: nat)
    ensures Length(STRICT, PrintInt(n), n)
  {
    PrintedIsNumeral(n);
    PrintIsDigits(n);
    assert IsDigit(Print(n)[0]);
  }

  lemma PrintedMinusOne()
    ensures NullLength(STRICT, PrintInt(-1))
  {
    assert Print(1) == "1";
  }

  lemma {:induction false} EncodedAreTexts(rs: seq<Reply>)
    requires AllPlain(rs)
    ensures TextAll(STRICT, EncodeAll(rs), rs)
    decreases rs, 0
  {
    hide Text, Encode;
    if rs != [] {
      EncodedIsText(rs[0]);
      EncodedAreTexts(rs[1..]);
    }
  }

  lemma {:induction false} TextIsPlain(s: string, r: Reply)
    requires Text(STANDARD, s, r)
    ensures Plain(r)
    decreases r, 1
  {
    hide Text;
    var id, h, body := Split(STANDARD, s, r);
    if r.Array? {
      TextsArePlain(body, r.rows);
    }
  }

  lemma {:induction false} TextsArePlain(s: string, rs: seq<Reply>)
    requires TextAll(STANDARD, s, rs)
    ensures AllPlain(rs)
    decreases rs, 0
  {
    if rs != [] {
      var a, b :| Text(STANDARD, a, rs[0]) && TextAll(STANDARD, b, rs[1..]) && s == a + b;
      TextIsPlain(a, rs[0]);
      TextsArePlain(b, rs[1..]);
    }
  }

  /** A reply of any size has a text in the standard exactly if its lines hold no CR and no LF; its encoding is one. */
  lemma HasStandardTextIff(r: Reply)
    ensures Plain(r) <==> exists s :: Text(STANDARD, s, r)
    ensures Plain(r) ==> Text(STRICT, Encode(r), r) && Text(STANDARD, Encode(r), r)
  {
    if Plain(r) {
      EncodedIsText(r);
      TextGrows(STRICT, STANDARD, Encode(r), r);
    }
    forall s | Text(STANDARD, s, r) ensures Plain(r) {
      TextIsPlain(s, r);
    }
  }

  /** Every command, whatever its arguments hold and however long they are, is sent as the standard says. */
  lemma CommandIsStandard(cmd: Command)
    ensures Text(STANDARD, BuildCommand(cmd), Request(cmd))
  {
    BulksArePlain(cmd);
    HasStandardTextIff(Request(cmd));
  }

  lemma {:induction false} BulksArePlain(args: seq<string>)
    ensures AllPlain(Bulks(args))
  {
    if args != [] {
      BulksArePlain(args[1..]);
    }
  }

  // --- Inputs that show the differences ---------------------------------------------------------

  lemma LineShared(d: Dialect, e: Dialect, id: char, h: string, q: Reply, r: Reply)
    requires OneLine(h) && Head(d, id, h, q) && Body(d, "", q) && Text(e, TypedLine(id, h), r)
    ensures r == q && Head(Both(d, e), id, h, q)
  {
    hide Text, Head, OneLine, TypedLine;
    var s := TypedLine(id, h);
    ShortTextOf(d, id, h, q);
    TextsMeet(d, e, s, q, s, r, "", "");
    var jd, k, body := Split(Both(d, e), s, q);
    HeadIsOneLine(Both(d, e), jd, k, q);
    assert s + "" == s;
    SplitsMeet(id, h, "", jd, k, body);
  }

  /** An integer with a plus sign is one of the standard, and is refused. */
  lemma PlusIsRefused(h: string, v: int)
    requires Positive(h) && StandardInteger(h, v)
    ensures Text(STANDARD, TypedLine(':', h), Integer(v))
    ensures forall r :: !Denotes(TypedLine(':', h), r)
  {
    StandardIntegerIff(h, v);
    HeadIsOneLine(STANDARD, ':', h, Integer(v));
    ShortTextOf(STANDARD, ':', h, Integer(v));
    hide Text, StandardInteger, OneLine, Denotes;
    forall r ensures !Denotes(TypedLine(':', h), r) {
      if Denotes(TypedLine(':', h), r) {
        DenotesIff(TypedLine(':', h), r);
        LineShared(STANDARD, BUILDERS, ':', h, Integer(v), r);
      }
    }
  }

  // A first line the builders read on its own and the standard does not have.
  lemma ReadThoughNotStandard(id: char, h: string, q: Reply)
    requires Head(BUILDERS, id, h, q) && Body(BUILDERS, "", q) && Fits(q) && !Head(STRICT, id, h, q)
    ensures Denotes(TypedLine(id, h), q)
    ensures forall r :: !Text(STANDARD, TypedLine(id, h), r)
  {
    HeadIsOneLine(BUILDERS, id, h, q);
    ShortTextOf(BUILDERS, id, h, q);
    DenotesIff(TypedLine(id, h), q);
    hide Text, Head, OneLine, Denotes;
    forall r ensures !Text(STANDARD, TypedLine(id, h), r) {
      if Text(STANDARD, TypedLine(id, h), r) {
        LineShared(BUILDERS, STANDARD, id, h, q, r);
      }
    }
  }

  /** A line without digits is no integer of the standard, and is read as zero. */
  lemma NoDigitsAreZero(h: string)
    requires h == "" || h == "-"
    ensures Denotes(TypedLine(':', h), Integer(0))
    ensures forall r :: !Text(STANDARD, TypedLine(':', h), r)
  {
    hide Text, Denotes;
    assert Digits(h) == "";
    ReadThoughNotStandard(':', h, Integer(0));
  }

  /** A line with a CR or LF of its own is none of the standard, and is read whole. */
  lemma LoneBreakIsKept(x: string)
    requires OneLine(x) && !Line(STANDARD, x)
    ensures Denotes(TypedLine('+', x), SimpleString(x))
    ensures forall r :: !Text(STANDARD, TypedLine('+', x), r)
  {
    hide Text, Denotes;
    LineIff(x);
    ReadThoughNotStandard('+', x, SimpleString(x));
  }

  /** One input for each difference. */
  lemma DifferencesAreReal()
    ensures Text(STANDARD, ":+5" + CRLF, Integer(5)) && forall r :: !Denotes(":+5" + CRLF, r)
    ensures Denotes(":" + CRLF, Integer(0)) && forall r :: !Text(STANDARD, ":" + CRLF, r)
    ensures Denotes("$-01" + CRLF, Null) && forall r :: !Text(STANDARD, "$-01" + CRLF, r)
    ensures Denotes("*-0" + CRLF, Array([])) && forall r :: !Text(STANDARD, "*-0" + CRLF, r)
    ensures Denotes("*" + CRLF, Array([])) && forall r :: !Text(STANDARD, "*" + CRLF, r)
    ensures Denotes("+a\rb" + CRLF, SimpleString("a\rb")) && forall r :: !Text(STANDARD, "+a\rb" + CRLF, r)
    ensures Denotes("+a\nb" + CRLF, SimpleString("a\nb")) && forall r :: !Text(STANDARD, "+a\nb" + CRLF, r)
  {
    hide Text, Denotes;
    assert "5"[..0] == "" && "01"[..1] == "0" && "0"[..0] == "";
    assert Spells("+5", 5, "5");
    PlusIsRefused("+5", 5);
    NoDigitsAreZero("");
    assert Digits("-01") == "01" && Value("01") == 1;
    ReadThoughNotStandard('$', "-01", Null);
    assert Digits("-0") == "0" && Digits("") == "";
    ReadThoughNotStandard('*', "-0", Array([]));
    ReadThoughNotStandard('*', "", Array([]));
    assert "a\rb"[1] == '\r' && "a\nb"[1] == '\n';
    LoneBreakIsKept("a\rb");
    LoneBreakIsKept("a\nb");
    assert ":+5" + CRLF == TypedLine(':', "+5") && ":" + CRLF == TypedLine(':', "");
    assert "$-01" + CRLF == TypedLine('$', "-01") && "+a\rb" + CRLF == TypedLine('+', "a\rb");
    assert "*-0" + CRLF == TypedLine('*', "-0") && "*" + CRLF == TypedLine('*', "");
    assert "+a\nb" + CRLF == TypedLine('+', "a\nb");
  }
}
