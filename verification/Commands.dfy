/**
 Command framing: how a command becomes bytes on the connection, RESP section
 "Sending commands to a Redis server".
 */
module Commands {
  import opened Decimal
  import opened Grammar
  import opened Lists
  import opened Parsing
  import opened ReplyStream
  import opened Resp
  import opened Wrappers

  type Command = seq<string>

  // A command travels as an array of bulk strings.
  function Request(cmd: Command): Reply {
    Array(Bulks(cmd))
  }

  function Bulks(args: seq<string>): (rs: seq<Reply>)
    ensures |rs| == |args| && forall i :: 0 <= i < |rs| ==> rs[i] == BulkString(args[i])
  {
    if args == [] then [] else [BulkString(args[0])] + Bulks(args[1..])
  }

  function BuildCommand(cmd: Command): string {
    Encode(Request(cmd))
  }

  function Requests(cmds: seq<Command>): (rs: seq<Reply>)
    ensures |rs| == |cmds| && forall i :: 0 <= i < |rs| ==> rs[i] == Request(cmds[i])
  {
    if cmds == [] then [] else [Request(cmds[0])] + Requests(cmds[1..])
  }

  // The pipelining buffer after sending cmds in order.
  function BuildAll(cmds: seq<Command>): string {
    if cmds == [] then "" else BuildCommand(cmds[0]) + BuildAll(cmds[1..])
  }

  // Sizes a frame can announce.
  ghost predicate Sendable(cmd: Command) {
    |cmd| <= INT64_MAX && forall i :: 0 <= i < |cmd| ==> |cmd[i]| <= INT32_MAX
  }

  ghost predicate AllSendable(cmds: seq<Command>) {
    forall i :: 0 <= i < |cmds| ==> Sendable(cmds[i])
  }

  lemma {:induction false} FitAllMeans(rs: seq<Reply>)
    ensures FitAll(rs) <==> forall i :: 0 <= i < |rs| ==> Fits(rs[i])
  {
    if rs != [] {
      FitAllMeans(rs[1..]);
      assert forall i :: 0 < i < |rs| ==> rs[i] == rs[1..][i - 1];
      if FitAll(rs) {
        forall i | 0 <= i < |rs| ensures Fits(rs[i]) {
          assert i == 0 || rs[i] == rs[1..][i - 1];
        }
      } else if Fits(rs[0]) {
        var i :| 0 <= i < |rs[1..]| && !Fits(rs[1..][i]);
        assert !Fits(rs[i + 1]);
      }
    }
  }

  lemma SendableFits(cmd: Command)
    ensures Fits(Request(cmd)) <==> Sendable(cmd)
  {
    var rs := Bulks(cmd);
    FitAllMeans(rs);
    assert forall i :: 0 <= i < |cmd| ==> Fits(rs[i]) == (|cmd[i]| <= INT32_MAX);
  }

  lemma AllSendableFit(cmds: seq<Command>)
    ensures FitAll(Requests(cmds)) <==> AllSendable(cmds)
  {
    var rs := Requests(cmds);
    FitAllMeans(rs);
    forall i | 0 <= i < |cmds| ensures Fits(rs[i]) == Sendable(cmds[i]) {
      SendableFits(cmds[i]);
    }
  }

  lemma {:induction false} BufferIsEncoding(cmds: seq<Command>)
    ensures BuildAll(cmds) == EncodeAll(Requests(cmds))
  {
    if cmds != [] {
      BufferIsEncoding(cmds[1..]);
    }
  }

  lemma {:induction false} BuildAppend(cmds: seq<Command>, cmd: Command)
    ensures BuildAll(cmds + [cmd]) == BuildAll(cmds) + BuildCommand(cmd)
  {
    hide BuildCommand;
    if cmds == [] {
      assert BuildAll([cmd]) == BuildCommand(cmd) + "";
    } else {
      BuildAppend(cmds[1..], cmd);
      assert (cmds + [cmd])[1..] == cmds[1..] + [cmd];
    }
  }

  /** A reader of the buffer, in any chunks, finds exactly the commands sent if and only if all are sendable. */
  lemma FramingExact(cmds: seq<Command>, chunks: seq<string>)
    requires Join(chunks) == BuildAll(cmds)
    ensures FeedAll(INITIAL, chunks) == Fine(Stream("", None, Requests(cmds))) <==> AllSendable(cmds)
  {
    BufferIsEncoding(cmds);
    StreamRoundTrip(Requests(cmds), chunks);
    AllSendableFit(cmds);
  }

  // --- Uniqueness, for arguments of any length -----------------------------

  lemma PrintedIsOneLine(n: nat)
    ensures OneLine(PrintInt(n)) && AllDigits(PrintInt(n)) && Value(PrintInt(n)) == n
  {
    PrintIsDigits(n);
  }

  lemma HeaderUnique(id: char, n: nat, m: nat, t: string, u: string)
    requires TypedLine(id, PrintInt(n)) + t == TypedLine(id, PrintInt(m)) + u
    ensures n == m && t == u
  {
    PrintedIsOneLine(n);
    PrintedIsOneLine(m);
    hide PrintInt, Value, AllDigits, TypedLine, FindBreak, ReadHeader;
    AfterHeader(id, PrintInt(n), t);
    AfterHeader(id, PrintInt(m), u);
  }

  lemma BulkUnique(x: string, y: string, t: string, u: string)
    requires Encode(BulkString(x)) + t == Encode(BulkString(y)) + u
    ensures x == y && t == u
  {
    BulkSplits(x, t);
    BulkSplits(y, u);
    hide Encode, TypedLine;
    HeaderUnique('$', |x|, |y|, x + (CRLF + t), y + (CRLF + u));
    SameLength(x, y, CRLF + t, CRLF + u);
    SameLength(CRLF, CRLF, t, u);
  }

  lemma BulkSplits(x: string, t: string)
    ensures Encode(BulkString(x)) + t == TypedLine('$', PrintInt(|x|)) + (x + (CRLF + t))
  {
    hide TypedLine, PrintInt;
    var h := TypedLine('$', PrintInt(|x|));
    Assoc(h, x + CRLF, t);
    Assoc(x, CRLF, t);
  }

  lemma {:induction false} BulksUnique(a: seq<string>, b: seq<string>, t: string, u: string)
    requires |a| == |b| && EncodeAll(Bulks(a)) + t == EncodeAll(Bulks(b)) + u
    ensures a == b && t == u
  {
    hide Encode;
    if a == [] {
      assert "" + t == t && "" + u == u;
    } else {
      var x, y := EncodeAll(Bulks(a[1..])), EncodeAll(Bulks(b[1..]));
      Assoc(Encode(BulkString(a[0])), x, t);
      Assoc(Encode(BulkString(b[0])), y, u);
      BulkUnique(a[0], b[0], x + t, y + u);
      BulksUnique(a[1..], b[1..], t, u);
    }
  }

  lemma RequestSplits(cmd: Command, t: string)
    ensures BuildCommand(cmd) + t == TypedLine('*', PrintInt(|cmd|)) + (EncodeAll(Bulks(cmd)) + t)
  {
    hide TypedLine, PrintInt, EncodeAll;
    Assoc(TypedLine('*', PrintInt(|cmd|)), EncodeAll(Bulks(cmd)), t);
  }

  /** A frame determines its command and its end: no two commands share one, and none starts another. */
  lemma CommandUnique(a: Command, b: Command, t: string, u: string)
    requires BuildCommand(a) + t == BuildCommand(b) + u
    ensures a == b && t == u
  {
    RequestSplits(a, t);
    RequestSplits(b, u);
    hide BuildCommand, EncodeAll, TypedLine;
    HeaderUnique('*', |a|, |b|, EncodeAll(Bulks(a)) + t, EncodeAll(Bulks(b)) + u);
    BulksUnique(a, b, t, u);
  }

  /** Two lists of commands never share a buffer, nor is one's buffer cut inside the other's. */
  lemma {:induction false} FramingUnique(a: seq<Command>, b: seq<Command>, t: string)
    requires BuildAll(b) == BuildAll(a) + t
    ensures a <= b && t == BuildAll(b[|a|..])
  {
    hide BuildCommand;
    if a == [] {
      assert "" + t == t;
    } else {
      Assoc(BuildCommand(a[0]), BuildAll(a[1..]), t);
      CommandNotEmpty(a[0]);
      assert b != [];
      CommandUnique(a[0], b[0], BuildAll(a[1..]) + t, BuildAll(b[1..]));
      FramingUnique(a[1..], b[1..], t);
    }
  }

  lemma CommandNotEmpty(cmd: Command)
    ensures BuildCommand(cmd) != ""
  {
    RequestSplits(cmd, "");
  }

  lemma BufferDenotes(cmds: seq<Command>)
    requires AllSendable(cmds)
    ensures DenotesAll(BuildAll(cmds), Requests(cmds))
  {
    BufferIsEncoding(cmds);
    AllSendableFit(cmds);
    EncodedDenoteAll(Requests(cmds));
  }

  // The form shown where the connection documents its framing: every argument a simple string.
  function Lines(args: seq<string>): (rs: seq<Reply>)
    ensures |rs| == |args| && forall i :: 0 <= i < |rs| ==> rs[i] == SimpleString(args[i])
  {
    if args == [] then [] else [SimpleString(args[0])] + Lines(args[1..])
  }

  function BuildInline(cmd: Command): string {
    Encode(Array(Lines(cmd)))
  }

  lemma LinesFit(cmd: Command)
    requires |cmd| <= INT64_MAX
    ensures Fits(Array(Lines(cmd))) <==> forall i :: 0 <= i < |cmd| ==> OneLine(cmd[i])
  {
    var rs := Lines(cmd);
    FitAllMeans(rs);
    hide OneLine, FitAll;
    assert forall i :: 0 <= i < |cmd| ==> Fits(rs[i]) == OneLine(cmd[i]);
  }

  /** That form can be read back exactly when no argument contains a line break. */
  lemma InlineExact(cmd: Command, t: string)
    requires |cmd| <= INT64_MAX
    ensures BuildInline(cmd) + t != ""
    ensures Start(BuildInline(cmd) + t) == Ready(Array(Lines(cmd)), t)
            <==> forall i :: 0 <= i < |cmd| ==> OneLine(cmd[i])
  {
    RoundTrip(Array(Lines(cmd)), t);
    hide Encode, Start, Fits, OneLine;
    LinesFit(cmd);
  }

  /** An argument with a line break does get lost in that form. */
  lemma InlineLosesBreaks()
    ensures Start(BuildInline(["a" + CRLF]) + "") != Ready(Array(Lines(["a" + CRLF])), "")
  {
    var cmd := ["a" + CRLF];
    InlineExact(cmd, "");
    assert BreakAt(cmd[0], 1);
  }
}
