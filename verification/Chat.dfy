/**
 The chat content of the server: who is in it, which account is logged in from
 which player, and which sector list each player stands in.
 */
module Chat {
  import opened Packets
  import opened Sectors
  import opened Wrappers

  // A slot of the player array stands for a player pointer.
  type Slot = nat

  datatype Player = Player(
    login: bool,
    monitor: bool,
    registered: bool,
    x: int,
    y: int,
    session: int,
    account: int,
    id: seq<byte>,
    nick: seq<byte>)

  // What the server is told to do for a session.
  datatype Effect =
    | Disconnect(session: int)
    | SetLogin(session: int)
    | Send(session: int, packet: Packet)
    | Sizes(session: int, sizes: seq<int>)

  datatype State = State(
    players: map<Slot, Player>,
    cells: seq<seq<Slot>>,
    roster: seq<Slot>,
    logins: map<int, Slot>,
    playerNum: int,
    monitoring: int,
    out: seq<Effect>)

  // The session of the monitoring client when there is none.
  const NO_MONITOR: int := 0xFFFF_FFFF_FFFF_FFFF

  // An operation either completes or leaves the defined behaviour of the program.
  datatype Outcome = Done(state: State) | Fault

  function Without(qs: seq<Slot>, p: Slot): seq<Slot> {
    if qs == [] then [] else if qs[0] == p then qs[1..] else [qs[0]] + Without(qs[1..], p)
  }

  // The list a player's recorded sector selects.
  function Home(pl: Player): int {
    Index(Cell(pl.x, pl.y))
  }

  predicate InRange(s: State, i: int) {
    0 <= i < |s.cells|
  }

  function RemoveAt(s: State, i: int, p: Slot): Outcome {
    if InRange(s, i) then Done(s.(cells := s.cells[i := Without(s.cells[i], p)])) else Fault
  }

  function RegisterAt(s: State, i: int, p: Slot): Outcome {
    if InRange(s, i) then Done(s.(cells := s.cells[i := s.cells[i] + [p]])) else Fault
  }

  function Emit(s: State, es: seq<Effect>): State {
    s.(out := s.out + es)
  }

  // A monitoring client takes over from the one before it.
  function MonitorLogin(s: State, session: int): State {
    var t := if s.monitoring != NO_MONITOR then Emit(s, [Disconnect(s.monitoring)]) else s;
    t.(monitoring := session)
  }

  // The session leaves the login timeout; an earlier player on the same account is disconnected and forgotten.
  function OnEnter(s: State, p: Slot): Outcome
    requires p in s.players
  {
    var pl := s.players[p];
    var t := Emit(s.(roster := s.roster + [p], playerNum := s.playerNum + 1), [SetLogin(pl.session)]);
    if pl.monitor then Done(t)
    else if pl.account !in s.logins then
      Done(Emit(t.(logins := t.logins[pl.account := p]), [Send(pl.session, ResLogin(1, pl.account))]))
    else if s.logins[pl.account] !in s.players then Fault
    else
      var kicked := s.players[s.logins[pl.account]].session;
      Done(Emit(t.(logins := t.logins[pl.account := p]),
                [Disconnect(kicked), Send(pl.session, ResLogin(1, pl.account))]))
  }

  // The account's entry is read without checking that there is one.
  function OnLeave(s: State, p: Slot): Outcome
    requires p in s.players
  {
    var pl := s.players[p];
    var t := s.(roster := Without(s.roster, p),
                monitoring := if pl.monitor && s.monitoring == pl.session then NO_MONITOR else s.monitoring);
    if !pl.login then Done(t)
    else if pl.account !in s.logins then Fault
    else
      var u := if t.logins[pl.account] == p then t.(logins := t.logins - {pl.account}) else t;
      match if pl.registered then RemoveAt(u, Home(pl), p) else Done(u)
      case Fault => Fault
      case Done(v) => Done(v.(playerNum := v.playerNum - 1))
  }

  // Both requests are honoured only for the sender's own account.
  predicate Accepted(pl: Player, account: int) {
    pl.login && pl.account == account
  }

  function SectorMove(s: State, p: Slot, account: int, x: int, y: int): Outcome
    requires p in s.players
  {
    var pl := s.players[p];
    if !Accepted(pl, account) || IsNonValidSector(x, y) then Done(Emit(s, [Disconnect(pl.session)]))
    else
      match if pl.registered then RemoveAt(s, Home(pl), p) else Done(s)
      case Fault => Fault
      case Done(t) =>
        var moved := pl.(registered := true, x := x, y := y);
        match RegisterAt(t.(players := t.players[p := moved]), Home(moved), p)
        case Fault => Fault
        case Done(u) => Done(Emit(u, [Send(pl.session, ResSectorMove(account, x, y))]))
  }

  // The players standing in the visited lists, list by list.
  function Recipients(cells: seq<seq<Slot>>, cs: seq<Cell>): Option<seq<Slot>> {
    if cs == [] then Some([])
    else if !(0 <= Index(cs[0]) < |cells|) then None
    else
      match Recipients(cells, cs[1..])
      case None => None
      case Some(qs) => Some(cells[Index(cs[0])] + qs)
  }

  function Enqueue(players: map<Slot, Player>, q: Slot, packet: Packet): seq<Effect> {
    if q in players then [Send(players[q].session, packet)] else []
  }

  function EnqueueAll(players: map<Slot, Player>, qs: seq<Slot>, packet: Packet): seq<Effect> {
    if qs == [] then []
    else Enqueue(players, qs[0], packet) + EnqueueAll(players, qs[1..], packet)
  }

  function Around(pl: Player): seq<Cell> {
    Visited(Short(pl.x), Short(pl.y))
  }

  function ChatMessage(s: State, p: Slot, account: int, message: seq<byte>): Outcome
    requires p in s.players
  {
    var pl := s.players[p];
    if !Accepted(pl, account) then Done(Emit(s, [Disconnect(pl.session)]))
    else
      match Recipients(s.cells, Around(pl))
      case None => Fault
      case Some(qs) => Done(Emit(s, EnqueueAll(s.players, qs, ResMessage(account, pl.id, pl.nick, message))))
  }

  // Each size is put as one signed byte; a negative one stops the program.
  function SizesOf(cells: seq<seq<Slot>>): Option<seq<int>> {
    if cells == [] then Some([])
    else if |cells[0]| % 0x100 >= 0x80 then None
    else
      match SizesOf(cells[1..])
      case None => None
      case Some(ns) => Some([|cells[0]| % 0x100] + ns)
  }

  function SectorSizes(s: State, p: Slot): Outcome
    requires p in s.players
  {
    match SizesOf(s.cells)
    case None => Fault
    case Some(ns) => Done(Emit(s, [Sizes(s.players[p].session, ns)]))
  }

  function OnRecv(c: Codes, s: State, p: Slot, packet: seq<byte>): Outcome
    requires p in s.players
  {
    match ParseRequest(c, packet)
    case Move(account, x, y) => SectorMove(s, p, account, x, y)
    case Message(account, message) => ChatMessage(s, p, account, message)
    case Heartbeat => Done(s)
    case SectorInfo => SectorSizes(s, p)
    case Reject => Done(Emit(s, [Disconnect(s.players[p].session)]))
  }

  // --- Runs ------------------------------------------------------------------

  function EmptyCells(n: nat): (cs: seq<seq<Slot>>)
    ensures |cs| == n && forall i :: 0 <= i < n ==> cs[i] == []
  {
    if n == 0 then [] else EmptyCells(n - 1) + [[]]
  }

  const INITIAL: State := State(map[], EmptyCells(CELLS), [], map[], 0, NO_MONITOR, [])

  datatype Event =
    | Join(p: Slot, player: Player)
    | Leave(p: Slot)
    | Receive(p: Slot, packet: seq<byte>)

  // Players come from the login content: logged in, not in any sector yet, with a session of their own.
  ghost predicate Enabled(s: State, e: Event) {
    match e
    case Join(p, pl) =>
      && p !in s.roster && pl.login && !pl.registered && IsWord(pl.x) && IsWord(pl.y) && pl.session != NO_MONITOR
      && Disconnect(pl.session) !in s.out
      && forall q :: q in s.roster && q in s.players ==> s.players[q].session != pl.session
    case Leave(p) => p in s.roster && p in s.players
    case Receive(p, _) => p in s.roster && p in s.players
  }

  // The player's slot as the login content hands it over.
  function Arrive(s: State, p: Slot, pl: Player): State {
    var t := s.(players := s.players[p := pl]);
    if pl.monitor then MonitorLogin(t, pl.session) else t
  }

  ghost function Step(c: Codes, s: State, e: Event): Outcome
    requires Enabled(s, e)
  {
    match e
    case Join(p, pl) => OnEnter(Arrive(s, p, pl), p)
    case Leave(p) => OnLeave(s, p)
    case Receive(p, packet) => OnRecv(c, s, p, packet)
  }

  ghost function Exec(c: Codes, s: State, es: seq<Event>): Option<Outcome>
    decreases |es|
  {
    if es == [] then Some(Done(s))
    else if !Enabled(s, es[0]) then None
    else
      match Step(c, s, es[0])
      case Fault => Some(Fault)
      case Done(t) => Exec(c, t, es[1..])
  }

  ghost predicate Reached(c: Codes, es: seq<Event>, s: State) {
    Exec(c, INITIAL, es) == Some(Done(s))
  }

  // --- What every reachable state satisfies ------------------------------------

  ghost predicate NoRepeats(qs: seq<Slot>) {
    forall p :: multiset(qs)[p] <= 1
  }

  // The registered players of the roster, each with the list its recorded sector selects.
  function Where(s: State): map<Slot, int> {
    map p | p in s.players && p in s.roster && s.players[p].registered :: Home(s.players[p])
  }

  // Each player of the map is once in its list; no other list holds anyone.
  ghost predicate Agree(cells: seq<seq<Slot>>, at: map<Slot, int>) {
    && |cells| == CELLS
    && (forall p :: p in at ==> 0 <= at[p] < CELLS)
    && forall i, p :: 0 <= i < CELLS ==> multiset(cells[i])[p] == if p in at && at[p] == i then 1 else 0
  }

  ghost predicate Roster(s: State) {
    && NoRepeats(s.roster) && s.playerNum == |s.roster|
    && (forall p :: p in s.roster ==> p in s.players && s.players[p].login)
    && (forall p :: p in s.roster && p in s.players ==> IsWord(s.players[p].x) && IsWord(s.players[p].y))
    && (forall p :: p in s.roster && p in s.players && s.players[p].registered ==>
          !IsNonValidSector(s.players[p].x, s.players[p].y))
    && (forall p, q :: p in s.roster && q in s.roster && p != q ==> s.players[p].session != s.players[q].session)
  }

  ghost predicate Placed(s: State) {
    Agree(s.cells, Where(s))
  }

  ghost predicate Entered(s: State, a: int) {
    a in s.logins ==>
      var p := s.logins[a];
      p in s.roster && p in s.players && !s.players[p].monitor && s.players[p].account == a
  }

  // The account's current player, or one that has been told to go.
  ghost predicate CurrentOrKicked(s: State, p: Slot)
    requires p in s.players
  {
    var pl := s.players[p];
    pl.monitor || (pl.account in s.logins && s.logins[pl.account] == p) || Disconnect(pl.session) in s.out
  }

  ghost predicate Logins(s: State) {
    && (forall a :: a in s.logins ==> Entered(s, a))
    && forall p :: p in s.roster ==> p in s.players && CurrentOrKicked(s, p)
  }

  ghost predicate Watches(s: State, p: Slot) {
    && s.monitoring != NO_MONITOR
    && p in s.roster && p in s.players && s.players[p].monitor && s.players[p].session == s.monitoring
  }

  // The known monitoring client is present; any other has been told to go.
  ghost predicate Monitors(s: State) {
    && (s.monitoring != NO_MONITOR ==> exists p :: Watches(s, p))
    && forall p :: p in s.roster && p in s.players && s.players[p].monitor ==>
         Watches(s, p) || Disconnect(s.players[p].session) in s.out
  }

  ghost predicate Inv(s: State) {
    Roster(s) && Placed(s) && Logins(s) && Monitors(s)
  }
}
