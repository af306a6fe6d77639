/** Every run of the pipelining client keeps the invariant of module Pipeline. */
module PipelineProofs {
  import opened Commands
  import opened Lists
  import opened Parsing
  import opened Pipeline
  import opened ReplyStream
  import opened Resp
  import opened Wrappers

  // --- The ledger ---------------------------------------------------------

  lemma TailOf(ps: seq<Pending>)
    requires ps != []
    ensures IdsOf(ps) == [ps[0].id] + IdsOf(ps[1..])
  {
  }

  lemma LedgerSend(s: System, cmd: Command)
    requires Ledger(s)
    ensures Ledger(SendStep(s, cmd))
  {
    hide BuildCommand;
    assert IdsOf(SendStep(s, cmd).client.commands) == IdsOf(s.client.commands) + [|s.sent|];
  }

  lemma LedgerStart(s: System)
    requires Ledger(s) && s.client.parser.replies != [] && s.client.commands != []
    ensures Ledger(StartStep(s))
  {
    var ps, s' := s.client.commands, StartStep(s);
    assert StartedIds(s'.started) == StartedIds(s.started) + [ps[0].id];
    TailOf(ps);
  }

  lemma LedgerFinish(s: System, i: nat)
    requires Ledger(s) && i < |s.runningIds|
    ensures Ledger(FinishStep(s, i))
  {
    var r := s.runningIds;
    assert r == r[..i] + [r[i]] + r[i + 1..];
    assert multiset(r) == multiset(r[..i] + r[i + 1..]) + multiset{r[i]};
  }

  // Steps that start, finish and send nothing: the waiting commands stay, or all of them are cleared.
  lemma RestEffects(s: System, e: Event)
    requires Enabled(s, e) && !e.SendCommand? && !e.Start? && !e.Finish?
    ensures var s' := Apply(s, e);
            && s'.sent == s.sent && s'.started == s.started && s'.client.running == s.client.running
            && s'.finished == s.finished && s'.runningIds == s.runningIds
            && ((s'.client.commands == s.client.commands && s'.cleared == s.cleared)
                || (s'.client.commands == [] && s'.cleared == s.cleared + IdsOf(s.client.commands)))
  {
    hide Take, BuildAll, Encode, Sendable, Fits;
  }

  lemma LedgerStep(s: System, e: Event)
    requires Ledger(s) && Enabled(s, e)
    requires e.Start? ==> s.client.commands != []
    ensures Ledger(Apply(s, e))
  {
    match e
    case SendCommand(cmd) => LedgerSend(s, cmd);
    case Start => LedgerStart(s);
    case Finish(i) => LedgerFinish(s, i);
    case _ => LedgerRest(s, e);
  }

  lemma LedgerRest(s: System, e: Event)
    requires Ledger(s) && Enabled(s, e) && !e.SendCommand? && !e.Start? && !e.Finish?
    ensures Ledger(Apply(s, e))
  {
    RestEffects(s, e);
    hide Apply, Enabled;
    assert IdsOf([]) == [];
  }

  // --- The order ----------------------------------------------------------

  lemma OrderedSend(s: System, cmd: Command)
    requires Ordered(s) && Sendable(cmd)
    ensures Ordered(SendStep(s, cmd))
  {
    var s' := SendStep(s, cmd);
    hide Sendable, BuildCommand;
    assert StartedIds(s'.started) + IdsOf(s'.client.commands)
        == StartedIds(s.started) + IdsOf(s.client.commands) + [|s.sent|];
  }

  lemma OrderedStart(s: System)
    requires Ordered(s) && s.client.parser.replies != [] && s.client.commands != []
    ensures Ordered(StartStep(s))
  {
    var ps := s.client.commands;
    GenuineTail(ps, s.sent);
    StartedNext(s.started, ps, s.client.parser.replies[0]);
    hide Genuine, Increasing;
  }

  lemma GenuineTail(ps: seq<Pending>, sent: seq<Command>)
    requires Genuine(ps, sent) && ps != []
    ensures Genuine(ps[1..], sent)
  {
    hide Sendable;
  }

  lemma StartedNext(xs: seq<Started>, ps: seq<Pending>, r: Reply)
    requires ps != []
    ensures StartedIds(xs + [Started(ps[0].id, r)]) + IdsOf(ps[1..]) == StartedIds(xs) + IdsOf(ps)
  {
    hide *;
    TailOf(ps);
    StartedSnoc(xs, Started(ps[0].id, r));
    Assoc(StartedIds(xs), [ps[0].id], IdsOf(ps[1..]));
  }

  lemma StartedSnoc(xs: seq<Started>, x: Started)
    ensures StartedIds(xs + [x]) == StartedIds(xs) + [x.id]
  {
  }

  lemma OrderedSame(s: System, s': System)
    requires Ordered(s) && s'.sent == s.sent && s'.started == s.started
    requires s'.client.commands == s.client.commands || s'.client.commands == []
    ensures Ordered(s')
  {
    var ids := StartedIds(s.started) + IdsOf(s.client.commands);
    var ids' := StartedIds(s'.started) + IdsOf(s'.client.commands);
    assert ids' == ids || ids' == ids[..|s.started|];
  }

  lemma OrderedStep(s: System, e: Event)
    requires Ordered(s) && Enabled(s, e)
    requires e.Start? ==> s.client.commands != []
    ensures Ordered(Apply(s, e))
  {
    match e
    case SendCommand(cmd) => OrderedSend(s, cmd);
    case Start => OrderedStart(s);
    case Finish(i) => OrderedSame(s, FinishStep(s, i));
    case _ =>
      RestEffects(s, e);
      OrderedSame(s, Apply(s, e));
  }

  // --- One direction of the connection ------------------------------------

  /** Whole texts behind an exhausted stream add exactly their replies. */
  lemma FeedForms(st: Stream, flight: string, q: seq<Reply>, s: string, rs: seq<Reply>)
    requires Feed(st, flight) == Fine(Stream("", None, q)) && DenotesAll(s, rs)
    ensures Feed(st, flight + s) == Fine(Stream("", None, q + rs))
  {
    FeedSplit(st, flight, s);
    DrainForms(s, rs, q, "");
    hide Denotes, DenotesAll, Consume, Parsing.Start;
    assert s + "" == s && "" + s == s;
  }

  lemma OneForm(r: Reply)
    requires Fits(r)
    ensures DenotesAll(Encode(r), [r])
  {
    assert FitAll([r]);
    EncodedDenoteAll([r]);
    assert EncodeAll([r]) == Encode(r) + EncodeAll([r][1..]);
    hide Denotes, DenotesAll, Encode;
    assert Encode(r) + "" == Encode(r);
  }

  lemma PrependInverse(q: Reply, f: Fed, rs: seq<Reply>)
    requires Prepend([q], f) == Fine(Stream("", None, rs))
    ensures rs != [] && rs[0] == q && f == Fine(Stream("", None, rs[1..]))
  {
    assert ([q] + Replies(f))[1..] == Replies(f);
  }

  lemma PrependInjective(q: Reply, f: Fed, st: Stream)
    requires Prepend([q], f) == Fine(st.(replies := [q] + st.replies))
    ensures f == Fine(st)
  {
    assert ([q] + f.state.replies)[1..] == ([q] + st.replies)[1..];
    assert f.state.replies == st.replies;
  }

  /** Taking the first of its queue leaves a reader settled, and everything it will still get. */
  lemma PopQueue(st: Stream, data: string, rs: seq<Reply>)
    requires Settled(st) && st.replies != []
    requires Feed(st, data) == Fine(Stream("", None, rs))
    ensures rs != [] && rs[0] == st.replies[0]
    ensures var st' := st.(replies := st.replies[1..]);
            Settled(st') && Feed(st', data) == Fine(Stream("", None, rs[1..]))
  {
    hide Drain;
    var q := st.replies[0];
    var st' := st.(replies := st.replies[1..]);
    DrainAppends(st'.(buffer := st.buffer + data), [q]);
    DrainAppends(st', [q]);
    assert [q] + st'.replies == st.replies;
    PrependInverse(q, Feed(st', data), rs);
    PrependInjective(q, Drain(st'), st');
  }

  /** Reading part of what is in flight changes nothing about what there is to read. */
  lemma ReadPart(st: Stream, a: string, b: string)
    requires Feed(st, a + b).Fine?
    ensures Feed(st, a).Fine? && Settled(Take(st, a)) && Feed(Take(st, a), b) == Feed(st, a + b)
  {
    hide Drain;
    FeedSplit(st, a, b);
    FeedSettles(st, a);
  }

  lemma AnswersRead(parser: Stream, a: string, b: string, due: seq<Served>)
    requires Answers(parser, a + b, due)
    ensures Feed(parser, a).Fine? && Answers(Take(parser, a), b, due)
  {
    ReadPart(parser, a, b);
  }

  lemma HearsRead(server: Stream, a: string, b: string, ps: seq<Pending>)
    requires Hears(server, a + b, ps)
    ensures Feed(server, a).Fine? && Hears(Take(server, a), b, ps)
  {
    ReadPart(server, a, b);
  }

  lemma AnswersMore(parser: Stream, flight: string, due: seq<Served>, x: Served)
    requires Answers(parser, flight, due) && Fits(x.reply)
    ensures Answers(parser, flight + Encode(x.reply), due + [x])
  {
    hide Feed, Settled, Fits, Encode;
    OneForm(x.reply);
    FeedForms(parser, flight, RepliesOf(due), Encode(x.reply), [x.reply]);
    assert RepliesOf(due + [x]) == RepliesOf(due) + [x.reply];
  }

  lemma AnswersPop(parser: Stream, flight: string, due: seq<Served>)
    requires Answers(parser, flight, due) && parser.replies != []
    ensures due != [] && due[0].reply == parser.replies[0]
    ensures Answers(parser.(replies := parser.replies[1..]), flight, due[1..])
  {
    hide Feed, Settled;
    PopQueue(parser, flight, RepliesOf(due));
    assert RepliesOf(due)[1..] == RepliesOf(due[1..]);
  }

  lemma HearsMore(server: Stream, flight: string, ps: seq<Pending>, p: Pending)
    requires Hears(server, flight, ps) && Sendable(p.command)
    ensures Hears(server, flight + BuildCommand(p.command), ps + [p])
  {
    hide Feed, Settled, Sendable;
    SendableFits(p.command);
    OneForm(Request(p.command));
    RequestsSnoc(ps, p);
    FeedForms(server, flight, Requests(CommandsOf(ps)), BuildCommand(p.command), [Request(p.command)]);
  }

  lemma RequestsSnoc(ps: seq<Pending>, p: Pending)
    ensures Requests(CommandsOf(ps + [p])) == Requests(CommandsOf(ps)) + [Request(p.command)]
    ensures CommandsOf(ps + [p]) == CommandsOf(ps) + [p.command]
  {
  }

  lemma HearsPop(server: Stream, flight: string, ps: seq<Pending>)
    requires Hears(server, flight, ps) && server.replies != []
    ensures ps != [] && server.replies[0] == Request(ps[0].command)
    ensures Hears(server.(replies := server.replies[1..]), flight, ps[1..])
  {
    hide Feed, Settled, Request;
    PopQueue(server, flight, Requests(CommandsOf(ps)));
    assert Requests(CommandsOf(ps))[1..] == Requests(CommandsOf(ps[1..]));
  }

  lemma FreshDirections(ps: seq<Pending>)
    requires AllSendable(CommandsOf(ps))
    ensures Answers(INITIAL, "", []) && Hears(INITIAL, BuildAll(CommandsOf(ps)), ps)
  {
    var cs := CommandsOf(ps);
    BufferDenotes(cs);
    AcceptsExactly(BuildAll(cs), Requests(cs));
    assert DenotesAll("", []);
    AcceptsExactly("", []);
    hide Denotes, DenotesAll;
    assert RepliesOf([]) == [];
  }

  // --- The connection -----------------------------------------------------

  lemma LinkedSend(s: System, cmd: Command)
    requires Linked(s) && !s.client.reconnecting && Sendable(cmd)
    ensures Linked(SendStep(s, cmd))
  {
    hide Answers, Hears, Expected, Sendable, BuildCommand, CommandsOf, BuildAll;
    var c, p := s.client, Pending(|s.sent|, cmd);
    if c.connected {
      MatchedSend(s, p);
      var k := |Due(s)|;
      HearsMore(s.server, s.toServer + c.buffer, c.commands[k..], p);
      assert (c.commands + [p])[k..] == c.commands[k..] + [p];
      Assoc(s.toServer, c.buffer, BuildCommand(cmd));
    } else {
      RequestsSnoc(c.commands, p);
      BuildAppend(CommandsOf(c.commands), cmd);
    }
  }

  lemma MatchedSend(s: System, p: Pending)
    requires Matched(s) && Expected(Due(s), s.client.commands) && p.id == |s.sent|
    ensures |Due(s)| <= |s.client.commands|
    ensures var s' := SendStep(s, p.command);
            Matched(s') && Due(s') == Due(s) && Expected(Due(s), s.client.commands + [p])
  {
    hide Request, BuildCommand;
    var s' := SendStep(s, p.command);
    forall i | s.base <= i < |s.started| ensures Right(s'.sent, s'.started[i], s'.served[i - s.base]) {
      assert Right(s.sent, s.started[i], s.served[i - s.base]);
    }
  }

  lemma LinkedCommit(s: System)
    requires Linked(s)
    ensures Linked(CommitStep(s))
  {
    hide Answers, Hears;
    assert s.toServer + s.client.buffer + "" == s.toServer + s.client.buffer;
    assert CommandsOf([]) == [];
  }

  lemma LinkedReads(s: System, n: nat)
    requires Linked(s) && s.client.connected && n <= |s.toServer|
    ensures Linked(ReadStep(s, n))
  {
    hide Answers, Hears, Take;
    var a, b := s.toServer[..n], s.toServer[n..] + s.client.buffer;
    assert a + b == s.toServer + s.client.buffer;
    HearsRead(s.server, a, b, s.client.commands[|Due(s)|..]);
  }

  lemma LinkedDeliver(s: System, n: nat)
    requires Linked(s) && s.client.connected && n <= |s.toClient|
    ensures Linked(DeliverStep(s, n))
  {
    hide Answers, Hears, Take;
    var a, b := s.toClient[..n], s.toClient[n..];
    assert a + b == s.toClient;
    AnswersRead(s.client.parser, a, b, Due(s));
  }

  lemma LinkedAnswers(s: System, r: Reply)
    requires Linked(s) && s.client.connected && s.server.replies != [] && Fits(r)
    ensures Linked(AnswerStep(s, r))
  {
    hide Answers, Hears, Fits, Encode;
    var c, due, k := s.client, Due(s), |Due(s)|;
    var q := s.server.replies[0];
    HearsPop(s.server, s.toServer + c.buffer, c.commands[k..]);
    assert c.commands[k..][1..] == c.commands[k + 1..];
    AnswersMore(c.parser, s.toClient, due, Served(q, r));
    MatchedAnswer(s, AnswerStep(s, r), q, r);
  }

  lemma MatchedAnswer(s: System, s': System, q: Reply, r: Reply)
    requires Matched(s) && s' == s.(server := s'.server, served := s.served + [Served(q, r)], toClient := s'.toClient)
    ensures Matched(s') && Due(s') == Due(s) + [Served(q, r)]
  {
    forall i | s.base <= i < |s.started| ensures Right(s'.sent, s'.started[i], s'.served[i - s.base]) {
      assert s'.served[i - s.base] == s.served[i - s.base];
    }
  }

  lemma LinkedStart(s: System)
    requires Linked(s) && Ordered(s) && s.client.parser.replies != []
    ensures s.client.commands != [] && Linked(StartStep(s))
  {
    hide Answers, Hears, Sendable, Increasing;
    var c, due := s.client, Due(s);
    AnswersPop(c.parser, s.toClient, due);
    var p, r := c.commands[0], c.parser.replies[0];
    assert p in c.commands;
    assert c.commands[1..][|due| - 1..] == c.commands[|due|..];
    MatchedStart(s, StartStep(s), p, r);
  }

  lemma MatchedStart(s: System, s': System, p: Pending, r: Reply)
    requires Matched(s) && Due(s) != [] && Due(s)[0] == Served(Request(p.command), r)
    requires p.id < |s.sent| && s.sent[p.id] == p.command
    requires s'.started == s.started + [Started(p.id, r)]
    requires s'.base == s.base && s'.served == s.served && s'.sent == s.sent
    ensures Matched(s') && Due(s') == Due(s)[1..]
  {
    var n := |s.started|;
    assert s'.served[n - s.base] == Due(s)[0] && Right(s.sent, s'.started[n], Due(s)[0]);
    forall i | s.base <= i < |s'.started| ensures Right(s'.sent, s'.started[i], s'.served[i - s.base]) {
      if i < n {
        assert s'.started[i] == s.started[i];
      }
    }
  }

  lemma FreshIsWired(s: System, c: Client, toServer: string)
    requires c.parser == INITIAL && AllSendable(CommandsOf(c.commands))
    requires toServer + c.buffer == BuildAll(CommandsOf(c.commands))
    ensures Wired(Fresh(s, c, toServer))
  {
    hide Answers, Hears, BuildAll, CommandsOf, AllSendable;
    FreshDirections(c.commands);
    var s' := Fresh(s, c, toServer);
    assert s'.served == [] && s'.started[s'.base..] == [];
    assert c.commands[0..] == c.commands;
  }

  lemma LinkedConnect(s: System, maxReconnects: int)
    requires Linked(s) && Ordered(s) && !s.client.connected && !s.client.reconnecting
    ensures Linked(ConnectStep(s, maxReconnects))
  {
    WaitingAreSendable(s);
    hide Wired, AllSendable, CommandsOf, BuildAll, Ordered;
    assert "" + s.client.buffer == s.client.buffer;
    FreshIsWired(s, Connected(s.client, maxReconnects), "");
  }

  lemma LinkedSucceed(s: System)
    requires Linked(s) && Ordered(s) && !s.client.connected
    ensures Linked(SucceedStep(s))
  {
    WaitingAreSendable(s);
    hide Wired, AllSendable, CommandsOf, BuildAll, Ordered;
    var bytes := BuildAll(CommandsOf(s.client.commands));
    assert bytes + "" == bytes;
    FreshIsWired(s, Reconnected(s.client), bytes);
  }

  lemma WaitingAreSendable(s: System)
    requires Ordered(s)
    ensures AllSendable(CommandsOf(s.client.commands))
  {
    hide Sendable, Increasing;
    var ps := s.client.commands;
    assert forall i :: 0 <= i < |ps| ==> ps[i] in ps;
  }

  lemma LinkedStep(s: System, e: Event)
    requires Linked(s) && Ordered(s) && Enabled(s, e)
    ensures Linked(Apply(s, e))
  {
    match e
    case SendCommand(cmd) => LinkedSend(s, cmd);
    case CommitBuffer => LinkedCommit(s);
    case ServerReads(n) => LinkedReads(s, n);
    case ServerAnswers(r) => LinkedAnswers(s, r);
    case Deliver(n) => LinkedDeliver(s, n);
    case Start => LinkedStart(s);
    case Connect(maxReconnects) => LinkedConnect(s, maxReconnects);
    case AttemptSucceeds => LinkedSucceed(s);
    case _ => LinkedRest(s, e);
  }

  lemma LinkedRest(s: System, e: Event)
    requires Linked(s) && Enabled(s, e)
    requires e.Finish? || e.Lose? || e.Cancel? || e.AttemptFails? || e.GiveUp?
    ensures Linked(Apply(s, e))
  {
    hide Answers, Hears, Expected, Matched;
    var s' := Apply(s, e);
    assert CommandsOf([]) == [];
    if s.client.connected && !e.Lose? {
      WiredSame(s, s');
    }
  }

  lemma WiredSame(s: System, s': System)
    requires Wired(s)
    requires s'.sent == s.sent && s'.started == s.started && s'.base == s.base && s'.served == s.served
    requires s'.server == s.server && s'.toServer == s.toServer && s'.toClient == s.toClient
    requires s'.client.parser == s.client.parser && s'.client.buffer == s.client.buffer
    requires s'.client.commands == s.client.commands
    ensures Wired(s')
  {
    hide Answers, Hears, Expected;
  }

  // --- Main results -------------------------------------------------------

  lemma {:induction false} RunsKeepInv(s: System, es: seq<Event>)
    requires Inv(s)
    ensures Exec(s, es).Some? ==> Inv(Exec(s, es).value)
    decreases |es|
  {
    if es != [] && Enabled(s, es[0]) {
      if es[0].Start? {
        LinkedStart(s);
      }
      LedgerStep(s, es[0]);
      OrderedStep(s, es[0]);
      LinkedStep(s, es[0]);
      RunsKeepInv(Apply(s, es[0]), es[1..]);
    }
  }

  lemma InitialInv(max: int)
    ensures Inv(Initial(max))
  {
    assert CommandsOf([]) == [];
  }

  /** Over any run the invariant holds. */
  lemma EveryRun(max: int, es: seq<Event>)
    requires Exec(Initial(max), es).Some?
    ensures Inv(Exec(Initial(max), es).value)
  {
    InitialInv(max);
    RunsKeepInv(Initial(max), es);
  }

  /**
   In every reachable state the k-th callback started on the current connection
   belongs to the command the server answered k-th and got that very answer, and
   callbacks have started in the order their commands were sent.
   */
  lemma EachCallbackGetsItsReply(max: int, es: seq<Event>, k: nat)
    requires Exec(Initial(max), es).Some?
    requires Exec(Initial(max), es).value.client.connected
    requires var s := Exec(Initial(max), es).value; s.base + k < |s.started|
    ensures var s := Exec(Initial(max), es).value;
            var x := s.started[s.base + k];
            && k < |s.served| && x.id < |s.sent|
            && s.served[k] == Served(Request(s.sent[x.id]), x.reply)
            && forall j :: 0 <= j < |s.started| && j < s.base + k ==> s.started[j].id < x.id
  {
    EveryRun(max, es);
    var s := Exec(Initial(max), es).value;
    var x := s.started[s.base + k];
    assert Right(s.sent, x, s.served[s.base + k - s.base]);
    var ids := StartedIds(s.started) + IdsOf(s.client.commands);
    assert forall j :: 0 <= j < |s.started| ==> ids[j] == s.started[j].id;
  }

  /** Once sync_commit's condition holds, each command ever sent has completed or been cleared, exactly once. */
  lemma QuietMeansSettled(max: int, es: seq<Event>, id: nat)
    requires Exec(Initial(max), es).Some?
    requires Quiet(Exec(Initial(max), es).value.client)
    requires id < |Exec(Initial(max), es).value.sent|
    ensures var s := Exec(Initial(max), es).value;
            multiset(s.finished)[id] + multiset(s.cleared)[id] == 1
  {
    EveryRun(max, es);
    var s := Exec(Initial(max), es).value;
    assert s.runningIds == [] && IdsOf(s.client.commands) == [];
    RangeOnce(|s.sent|, id);
    assert multiset(Range(|s.sent|))[id] == multiset(s.finished)[id] + multiset(s.cleared)[id];
  }

  /** At any time each command sent is pending, running, completed or cleared: one of them, once. */
  lemma ExactlyOnePlace(max: int, es: seq<Event>, id: nat)
    requires Exec(Initial(max), es).Some?
    requires id < |Exec(Initial(max), es).value.sent|
    ensures var s := Exec(Initial(max), es).value;
            multiset(IdsOf(s.client.commands))[id] + multiset(s.runningIds)[id]
            + multiset(s.finished)[id] + multiset(s.cleared)[id] == 1
  {
    EveryRun(max, es);
    var s := Exec(Initial(max), es).value;
    RangeOnce(|s.sent|, id);
    assert multiset(StartedIds(s.started))[id] == multiset(s.finished)[id] + multiset(s.runningIds)[id];
    assert multiset(Range(|s.sent|))[id] == multiset(StartedIds(s.started))[id] + multiset(s.cleared)[id]
                                            + multiset(IdsOf(s.client.commands))[id];
  }

  /** Neither end ever refuses what it reads, and a reply never arrives without a command to take it. */
  lemma NoReplyIsLost(max: int, es: seq<Event>, n: nat)
    requires Exec(Initial(max), es).Some?
    ensures var s := Exec(Initial(max), es).value;
            && (s.client.parser.replies != [] ==> s.client.commands != [])
            && (s.client.connected && n <= |s.toClient| ==> Feed(s.client.parser, s.toClient[..n]).Fine?)
            && (s.client.connected && n <= |s.toServer| ==> Feed(s.server, s.toServer[..n]).Fine?)
  {
    EveryRun(max, es);
    var s := Exec(Initial(max), es).value;
    if s.client.parser.replies != [] {
      LinkedStart(s);
    }
    hide Ledger, Ordered, Matched, Expected, Feed, Settled;
    if s.client.connected && n <= |s.toClient| {
      FinePrefix(s.client.parser, s.toClient, n);
    }
    if s.client.connected && n <= |s.toServer| {
      FinePrefix(s.server, s.toServer + s.client.buffer, n);
      assert (s.toServer + s.client.buffer)[..n] == s.toServer[..n];
    }
  }

  lemma FinePrefix(st: Stream, data: string, n: nat)
    requires n <= |data| && Feed(st, data).Fine?
    ensures Feed(st, data[..n]).Fine?
  {
    FeedSplit(st, data[..n], data[n..]);
    assert data[..n] + data[n..] == data;
  }

  lemma NothingWaits(s: System)
    requires Inv(s) && s.client.connected && s.toServer == "" && s.toClient == "" && s.client.buffer == ""
    requires s.server.replies == [] && s.client.parser.replies == []
    ensures s.client.commands == []
  {
    assert s.toServer + s.client.buffer == "";
    assert forall st: Stream :: st.(buffer := st.buffer + "") == st by {
      assert forall b: string :: b + "" == b;
    }
  }

  /**
   When everything committed has been answered and delivered, no command is left
   waiting: a quiet network leaves only commands still in the buffer.
   */
  lemma DrainedNetwork(max: int, es: seq<Event>)
    requires Exec(Initial(max), es).Some?
    requires var s := Exec(Initial(max), es).value;
             && s.client.connected && s.toServer == "" && s.toClient == ""
             && s.server.replies == [] && s.client.parser.replies == []
             && s.client.buffer == ""
    ensures Exec(Initial(max), es).value.client.commands == []
  {
    EveryRun(max, es);
    NothingWaits(Exec(Initial(max), es).value);
  }

  /**
   A reconnection sends again, in order and once each, exactly the commands still
   pending: that is what the server will read, and their callbacks go on waiting.
   */
  lemma ResentInOrder(max: int, es: seq<Event>)
    requires Exec(Initial(max), es).Some?
    requires Enabled(Exec(Initial(max), es).value, AttemptSucceeds)
    ensures var s := Exec(Initial(max), es).value; var t := Apply(s, AttemptSucceeds);
            && t.client.commands == s.client.commands
            && Feed(t.server, t.toServer) == Fine(Stream("", None, Requests(CommandsOf(s.client.commands))))
  {
    EveryRun(max, es);
    var s := Exec(Initial(max), es).value;
    hide Wired, Exec;
    LinkedStep(s, AttemptSucceeds);
    HearsAllPending(Apply(s, AttemptSucceeds));
  }

  lemma HearsAllPending(s: System)
    requires Wired(s) && s.served == [] && s.client.buffer == ""
    ensures Feed(s.server, s.toServer) == Fine(Stream("", None, Requests(CommandsOf(s.client.commands))))
  {
    hide Answers, Expected, Feed, Settled;
    assert s.client.commands[0..] == s.client.commands;
    assert s.toServer + "" == s.toServer;
  }
}
