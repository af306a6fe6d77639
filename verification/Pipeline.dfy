/**
 The pipelining client and the connection it talks over, as a step protocol. The
 client part follows its fields and the documented contract of its operations;
 the network and the server are steps that may happen at any time: bytes move in
 any pieces, the server answers its requests in order with any reply, and the
 connection may drop.
 */
module Pipeline {
  import opened Commands
  import opened Lists
  import opened ReplyStream
  import opened Resp
  import opened Wrappers

  // A command waiting for its reply; the id stands for its callback.
  datatype Pending = Pending(id: nat, command: Command)

  datatype Client = Client(
    parser: Stream,
    buffer: string,
    connected: bool,
    reconnecting: bool,
    cancel: bool,
    attempts: int,
    maxReconnects: int,
    commands: seq<Pending>,
    running: nat)

  predicate ShouldReconnect(c: Client) {
    !c.connected && !c.cancel && c.attempts < c.maxReconnects
  }

  function CommandsOf(ps: seq<Pending>): (cs: seq<Command>)
    ensures |cs| == |ps| && forall i :: 0 <= i < |cs| ==> cs[i] == ps[i].command
  {
    seq(|ps|, i requires 0 <= i < |ps| => ps[i].command)
  }

  function IdsOf(ps: seq<Pending>): (ids: seq<nat>)
    ensures |ids| == |ps| && forall i :: 0 <= i < |ids| ==> ids[i] == ps[i].id
  {
    seq(|ps|, i requires 0 <= i < |ps| => ps[i].id)
  }

  // send: queue the command and buffer its bytes.
  function Send(c: Client, p: Pending): Client {
    c.(commands := c.commands + [p], buffer := c.buffer + BuildCommand(p.command))
  }

  // commit: the buffer is emptied in every case; without a connection the pending callbacks are cleared.
  function Commit(c: Client): Client {
    if c.reconnecting then c
    else if c.connected then c.(buffer := "")
    else c.(buffer := "", commands := [])
  }

  // A reply is handed over: the oldest pending command leaves the queue and its callback runs.
  function StartCallback(c: Client): Client
    requires c.parser.replies != []
  {
    c.(parser := c.parser.(replies := c.parser.replies[1..]),
       commands := if c.commands == [] then [] else c.commands[1..],
       running := c.running + 1)
  }

  // A callback returns.
  function FinishCallback(c: Client): Client {
    c.(running := if c.running == 0 then 0 else c.running - 1)
  }

  // The first connection, or one after giving up: what is buffered stays to be committed.
  function Connected(c: Client, maxReconnects: int): Client {
    c.(parser := INITIAL, connected := true, maxReconnects := maxReconnects)
  }

  // What sync_commit waits for.
  predicate NothingPending(running: nat, commands: seq<Pending>) {
    running == 0 && commands == []
  }

  predicate Quiet(c: Client) {
    NothingPending(c.running, c.commands)
  }

  // The connection is lost.
  function Drop(c: Client): Client {
    var d := c.(parser := INITIAL, buffer := "", connected := false, attempts := 0);
    if ShouldReconnect(d) then d.(reconnecting := true) else d.(commands := [], reconnecting := false)
  }

  // A new connection: every pending command is sent again, in order, with its callback.
  function Reconnected(c: Client): Client {
    c.(parser := INITIAL, buffer := "", connected := true, reconnecting := false, attempts := c.attempts + 1)
  }

  // No attempt is left, or reconnecting was cancelled.
  function Abandon(c: Client): Client {
    c.(commands := [], reconnecting := false)
  }

  // What the server has answered on the current connection, and which callbacks ran with what.
  datatype Served = Served(request: Reply, reply: Reply)
  datatype Started = Started(id: nat, reply: Reply)

  datatype System = System(
    client: Client,
    sent: seq<Command>,
    started: seq<Started>,
    runningIds: seq<nat>,
    finished: seq<nat>,
    cleared: seq<nat>,
    base: nat,
    served: seq<Served>,
    server: Stream,
    toServer: string,
    toClient: string)

  datatype Event =
    | Connect(maxReconnects: int)
    | SendCommand(command: Command)
    | CommitBuffer
    | ServerReads(n: nat)
    | ServerAnswers(reply: Reply)
    | Deliver(n: nat)
    | Start
    | Finish(i: nat)
    | Lose
    | Cancel
    | AttemptFails
    | GiveUp
    | AttemptSucceeds

  function Initial(maxReconnects: int): System {
    System(Client(INITIAL, "", false, false, false, 0, maxReconnects, [], 0),
           [], [], [], [], [], 0, [], INITIAL, "", "")
  }

  ghost predicate Enabled(s: System, e: Event) {
    var c := s.client;
    match e
    case Connect(_) => !c.connected && !c.reconnecting
    case SendCommand(cmd) => !c.reconnecting && Sendable(cmd)
    case CommitBuffer => true
    case ServerReads(n) => c.connected && n <= |s.toServer|
    case ServerAnswers(r) => c.connected && s.server.replies != [] && Fits(r)
    case Deliver(n) => c.connected && n <= |s.toClient|
    case Start => c.parser.replies != []
    case Finish(i) => i < |s.runningIds|
    case Lose => c.connected
    case Cancel => true
    case AttemptFails => c.reconnecting && ShouldReconnect(c)
    case GiveUp => c.reconnecting && !ShouldReconnect(c)
    case AttemptSucceeds => c.reconnecting && ShouldReconnect(c)
  }

  // A fresh connection: nothing served, nothing in flight.
  function Fresh(s: System, c: Client, toServer: string): System {
    s.(client := c, base := |s.started|, served := [], server := INITIAL, toServer := toServer, toClient := "")
  }

  function Clear(s: System, c: Client): System {
    s.(client := c, cleared := s.cleared + IdsOf(s.client.commands))
  }

  // Bytes a peer has read; a refused stream cannot go on and is left as it was.
  function Take(st: Stream, data: string): Stream {
    match Feed(st, data)
    case Fine(st') => st'
    case Failed(_) => st
  }

  function SendStep(s: System, cmd: Command): System {
    s.(client := Send(s.client, Pending(|s.sent|, cmd)), sent := s.sent + [cmd])
  }

  function CommitStep(s: System): System {
    var c := s.client;
    if c.connected then s.(client := Commit(c), toServer := s.toServer + c.buffer)
    else if c.reconnecting then s.(client := Commit(c))
    else Clear(s, Commit(c))
  }

  function ReadStep(s: System, n: nat): System
    requires n <= |s.toServer|
  {
    s.(server := Take(s.server, s.toServer[..n]), toServer := s.toServer[n..])
  }

  function AnswerStep(s: System, r: Reply): System
    requires s.server.replies != []
  {
    s.(server := s.server.(replies := s.server.replies[1..]),
       served := s.served + [Served(s.server.replies[0], r)],
       toClient := s.toClient + Encode(r))
  }

  function DeliverStep(s: System, n: nat): System
    requires n <= |s.toClient|
  {
    s.(client := s.client.(parser := Take(s.client.parser, s.toClient[..n])), toClient := s.toClient[n..])
  }

  function StartStep(s: System): System
    requires s.client.parser.replies != []
  {
    var c := s.client;
    if c.commands == [] then s.(client := StartCallback(c)) else
    s.(client := StartCallback(c),
       started := s.started + [Started(c.commands[0].id, c.parser.replies[0])],
       runningIds := s.runningIds + [c.commands[0].id])
  }

  function FinishStep(s: System, i: nat): System
    requires i < |s.runningIds|
  {
    s.(client := FinishCallback(s.client),
       runningIds := s.runningIds[..i] + s.runningIds[i + 1..],
       finished := s.finished + [s.runningIds[i]])
  }

  function LoseStep(s: System): System {
    var lost := Fresh(s, Drop(s.client), "");
    if Drop(s.client).reconnecting then lost else lost.(cleared := s.cleared + IdsOf(s.client.commands))
  }

  function ConnectStep(s: System, maxReconnects: int): System {
    Fresh(s, Connected(s.client, maxReconnects), "")
  }

  function SucceedStep(s: System): System {
    Fresh(s, Reconnected(s.client), BuildAll(CommandsOf(s.client.commands)))
  }

  ghost function Apply(s: System, e: Event): System
    requires Enabled(s, e)
  {
    match e
    case Connect(maxReconnects) => ConnectStep(s, maxReconnects)
    case SendCommand(cmd) => SendStep(s, cmd)
    case CommitBuffer => CommitStep(s)
    case ServerReads(n) => ReadStep(s, n)
    case ServerAnswers(r) => AnswerStep(s, r)
    case Deliver(n) => DeliverStep(s, n)
    case Start => StartStep(s)
    case Finish(i) => FinishStep(s, i)
    case Lose => LoseStep(s)
    case Cancel => s.(client := s.client.(cancel := true))
    case AttemptFails => s.(client := s.client.(attempts := s.client.attempts + 1))
    case GiveUp => Clear(s, Abandon(s.client))
    case AttemptSucceeds => SucceedStep(s)
  }

  ghost function Exec(s: System, es: seq<Event>): Option<System>
    decreases |es|
  {
    if es == [] then Some(s)
    else if !Enabled(s, es[0]) then None
    else Exec(Apply(s, es[0]), es[1..])
  }

  // --- What every reachable state satisfies -------------------------------

  function StartedIds(xs: seq<Started>): (ids: seq<nat>)
    ensures |ids| == |xs| && forall i :: 0 <= i < |ids| ==> ids[i] == xs[i].id
  {
    seq(|xs|, i requires 0 <= i < |xs| => xs[i].id)
  }

  // Every command sent is exactly one of pending, running, completed or cleared.
  ghost predicate Ledger(s: System) {
    && multiset(StartedIds(s.started)) + multiset(s.cleared) + multiset(IdsOf(s.client.commands))
       == multiset(Range(|s.sent|))
    && multiset(s.finished) + multiset(s.runningIds) == multiset(StartedIds(s.started))
    && s.client.running == |s.runningIds|
  }

  ghost predicate Increasing(ids: seq<nat>, bound: nat) {
    && (forall i :: 0 <= i < |ids| ==> ids[i] < bound)
    && forall i, j :: 0 <= i < j < |ids| ==> ids[i] < ids[j]
  }

  // Each waiting command is the one its id was given to.
  ghost predicate Genuine(ps: seq<Pending>, sent: seq<Command>) {
    forall p :: p in ps ==> p.id < |sent| && sent[p.id] == p.command && Sendable(p.command)
  }

  // Commands wait, and callbacks start, in the order the commands were sent.
  ghost predicate Ordered(s: System) {
    && Increasing(StartedIds(s.started) + IdsOf(s.client.commands), |s.sent|)
    && Genuine(s.client.commands, s.sent)
  }

  function RepliesOf(xs: seq<Served>): (rs: seq<Reply>)
    ensures |rs| == |xs| && forall i :: 0 <= i < |rs| ==> rs[i] == xs[i].reply
  {
    seq(|xs|, i requires 0 <= i < |xs| => xs[i].reply)
  }

  // The answers that have not reached their callback yet.
  function Due(s: System): seq<Served>
    requires s.base <= |s.started| <= s.base + |s.served|
  {
    s.served[|s.started| - s.base..]
  }

  // A callback that ran got this answer, which the server gave to its own command.
  ghost predicate Right(sent: seq<Command>, x: Started, answer: Served) {
    x.id < |sent| && answer == Served(Request(sent[x.id]), x.reply)
  }

  // The k-th callback started on this connection got the server's k-th answer, to its own command.
  ghost predicate Matched(s: System) {
    && s.base <= |s.started| <= s.base + |s.served|
    && forall i :: s.base <= i < |s.started| ==> Right(s.sent, s.started[i], s.served[i - s.base])
  }

  // The answers due are for the oldest waiting commands, in order.
  ghost predicate Expected(due: seq<Served>, ps: seq<Pending>) {
    |due| <= |ps| && forall i :: 0 <= i < |due| ==> due[i].request == Request(ps[i].command)
  }

  // What the client has and will read are exactly these answers.
  ghost predicate Answers(parser: Stream, flight: string, due: seq<Served>) {
    Settled(parser) && Feed(parser, flight) == Fine(Stream("", None, RepliesOf(due)))
  }

  // What the server has and will read are exactly the requests for these commands.
  ghost predicate Hears(server: Stream, flight: string, ps: seq<Pending>) {
    Settled(server) && Feed(server, flight) == Fine(Stream("", None, Requests(CommandsOf(ps))))
  }

  // Bytes in flight and in the parsers are exactly the answers due and the requests not yet answered.
  ghost predicate Wired(s: System) {
    && Matched(s)
    && Expected(Due(s), s.client.commands)
    && Answers(s.client.parser, s.toClient, Due(s))
    && Hears(s.server, s.toServer + s.client.buffer, s.client.commands[|Due(s)|..])
  }

  ghost predicate Linked(s: System) {
    var c := s.client;
    if c.connected then !c.reconnecting && Wired(s)
    else
      && c.parser == INITIAL && s.base <= |s.started|
      && c.buffer == if c.reconnecting then "" else BuildAll(CommandsOf(c.commands))
  }

  ghost predicate Inv(s: System) {
    Ledger(s) && Ordered(s) && Linked(s)
  }
}
