/**
 Runs of the chat content from its initial state: players stand wherever they may,
 and the places where the code leaves its defined behaviour are reached.
 */
module ChatRuns {
  import opened Chat
  import opened ChatProofs
  import opened ChatResults
  import opened Lists
  import opened Packets
  import opened Sectors
  import opened Wrappers

  // --- Requests as bytes ---------------------------------------------------------

  function MoveBytes(c: Codes, account: int, x: int, y: int): seq<byte>
    requires Proper(c) && IsInt64(account) && IsWord(x) && IsWord(y)
  {
    WordBytes(c.reqMove) + (Int64Bytes(account) + (WordBytes(x) + WordBytes(y)))
  }

  function MessageBytes(c: Codes, account: int, message: seq<byte>): seq<byte>
    requires Proper(c) && IsInt64(account) && |message| < 0x1_0000
  {
    WordBytes(c.reqMessage) + (Int64Bytes(account) + (WordBytes(|message|) + message))
  }

  // The size request has a code of its own.
  ghost predicate AsksSizes(c: Codes) {
    && Proper(c) && IsWord(c.reqSectorInfo)
    && c.reqSectorInfo !in {c.reqMove, c.reqMessage, c.reqHeartbeat, c.monitorLogin}
  }

  function SizesBytes(c: Codes): seq<byte>
    requires AsksSizes(c)
  {
    WordBytes(c.reqSectorInfo)
  }

  lemma MoveParsed(c: Codes, account: int, x: int, y: int)
    requires Proper(c) && IsInt64(account) && IsWord(x) && IsWord(y)
    ensures ParseRequest(c, MoveBytes(c, account, x, y)) == Request.Move(account, x, y)
  {
    hide ParseRequest;
    MoveRequestExact(c, MoveBytes(c, account, x, y), account, x, y);
  }

  lemma MessageParsed(c: Codes, account: int, message: seq<byte>)
    requires Proper(c) && IsInt64(account) && |message| < 0x1_0000
    ensures ParseRequest(c, MessageBytes(c, account, message)) == Request.Message(account, message)
  {
    hide ParseRequest;
    MessageRequestExact(c, MessageBytes(c, account, message), account, message);
  }

  lemma SizesParsed(c: Codes)
    requires AsksSizes(c)
    ensures ParseRequest(c, SizesBytes(c)) == Request.SectorInfo
  {
    hide WordBytes, TakeWord;
    assert WordBytes(c.reqSectorInfo) + [] == WordBytes(c.reqSectorInfo);
    WordExact(SizesBytes(c), c.reqSectorInfo, []);
  }

  // --- Runs, one event at a time ----------------------------------------------------

  lemma {:induction false} RunGoesOn(c: Codes, s: State, es: seq<Event>, t: State, e: Event)
    requires Exec(c, s, es) == Some(Done(t)) && Enabled(t, e)
    ensures Exec(c, s, es + [e]) == Some(Step(c, t, e))
    decreases |es|
  {
    hide Step, Enabled;
    if es == [] {
      assert (es + [e])[1..] == [];
    } else {
      assert (es + [e])[1..] == es[1..] + [e];
      RunGoesOn(c, Step(c, s, es[0]).state, es[1..], t, e);
    }
  }

  lemma Next(c: Codes, es: seq<Event>, s: State, e: Event)
    requires Reached(c, es, s) && Enabled(s, e)
    ensures Exec(c, Chat.INITIAL, es + [e]) == Some(Step(c, s, e))
    ensures Step(c, s, e).Done? ==> Reached(c, es + [e], Step(c, s, e).state) && Inv(Step(c, s, e).state)
  {
    hide Inv, Step, Enabled;
    RunGoesOn(c, Chat.INITIAL, es, s, e);
    if Step(c, s, e).Done? {
      EveryRun(c, es + [e], Step(c, s, e).state);
    }
  }

  // A player the login content hands over, with whatever its sector fields hold.
  function Newcomer(session: int, account: int, x: int, y: int): Player {
    Player(true, false, false, x, y, session, account, [], [])
  }

  function Monitor(session: int, account: int): Player {
    Newcomer(session, account, 51, 51).(monitor := true)
  }

  function Account1(session: int): Player {
    Newcomer(session, 1, 51, 51)
  }

  lemma Joins(c: Codes, es: seq<Event>, s: State, p: Slot, pl: Player) returns (t: State)
    requires Reached(c, es, s) && Inv(s) && Enabled(s, Join(p, pl))
    ensures Reached(c, es + [Join(p, pl)], t) && Inv(t)
    ensures t.roster == s.roster + [p] && t.players == s.players[p := pl]
    ensures t.logins == if pl.monitor then s.logins else s.logins[pl.account := p]
    ensures OnEnter(Arrive(s, p, pl), p) == Done(t)
  {
    EnterKeeps(s, p, pl);
    EnterEffects(s, p, pl);
    t := OnEnter(Arrive(s, p, pl), p).state;
    hide Inv, OnEnter, Arrive, Reached, Enabled;
    assert Step(c, s, Join(p, pl)) == Done(t);
    Next(c, es, s, Join(p, pl));
  }

  lemma EnterSays(s: State, p: Slot, pl: Player)
    requires !pl.monitor && pl.account !in s.logins
    ensures OnEnter(Arrive(s, p, pl), p).Done?
    ensures OnEnter(Arrive(s, p, pl), p).state.out ==
              s.out + [SetLogin(pl.session)] + [Send(pl.session, ResLogin(1, pl.account))]
  {
  }

  // The first player to join.
  lemma FirstJoins(c: Codes, pl: Player) returns (s: State)
    requires pl.login && !pl.registered && IsWord(pl.x) && IsWord(pl.y) && pl.session != NO_MONITOR
    ensures Reached(c, [Join(0, pl)], s) && Inv(s)
    ensures s.roster == [0] && s.players == map[0 := pl]
    ensures s.logins == if pl.monitor then map[] else map[pl.account := 0]
    ensures !pl.monitor ==> s.out == [SetLogin(pl.session), Send(pl.session, ResLogin(1, pl.account))]
  {
    assert Reached(c, [], Chat.INITIAL);
    EveryRun(c, [], Chat.INITIAL);
    s := Joins(c, [], Chat.INITIAL, 0, pl);
    if !pl.monitor {
      EnterSays(Chat.INITIAL, 0, pl);
    }
    hide Inv, EmptyCells, OnEnter, Arrive, Reached;
    assert [] + [Join(0, pl)] == [Join(0, pl)];
    assert map[][0 := pl] == map[0 := pl];
  }

  // Two players on one account.
  lemma BothJoin(c: Codes) returns (s: State)
    ensures Reached(c, [Join(0, Account1(7)), Join(1, Account1(8))], s) && Inv(s)
    ensures s.roster == [0, 1] && s.players == map[0 := Account1(7), 1 := Account1(8)] && s.logins == map[1 := 1]
  {
    var s1 := FirstJoins(c, Account1(7));
    s := Joins(c, [Join(0, Account1(7))], s1, 1, Account1(8));
    hide Inv, OnEnter, Arrive, Reached, Enabled;
    assert [Join(0, Account1(7))] + [Join(1, Account1(8))] == [Join(0, Account1(7)), Join(1, Account1(8))];
    assert map[0 := Account1(7)][1 := Account1(8)] == map[0 := Account1(7), 1 := Account1(8)];
    assert map[1 := 0][1 := 1] == map[1 := 1];
  }

  // One player joins and sends one packet.
  lemma JoinsAndSends(c: Codes, pl: Player, packet: seq<byte>) returns (s: State)
    requires pl.login && !pl.registered && !pl.monitor && IsWord(pl.x) && IsWord(pl.y) && pl.session != NO_MONITOR
    ensures Inv(s) && s.roster == [0] && s.players == map[0 := pl]
    ensures Exec(c, Chat.INITIAL, [Join(0, pl), Receive(0, packet)]) == Some(OnRecv(c, s, 0, packet))
  {
    s := FirstJoins(c, pl);
    var e := Receive(0, packet);
    hide Inv, OnRecv, Reached;
    assert Enabled(s, e) && Step(c, s, e) == OnRecv(c, s, 0, packet);
    Next(c, [Join(0, pl)], s, e);
    assert [Join(0, pl)] + [e] == [Join(0, pl), e];
  }

  lemma HomeHasList(pl: Player)
    requires IsWord(pl.x) && IsWord(pl.y)
    ensures HasList(Cell(pl.x, pl.y)) <==> 0 <= Home(pl) < CELLS
  {
  }

  /**
   Sector fields are not set before the first move, and chatting does not ask whether
   there was one: a player who chats first is read out of bounds exactly when what its
   fields happen to hold selects no list.
   */
  lemma ChatBeforeMoveIff(c: Codes, x: int, y: int, message: seq<byte>)
    requires Proper(c) && IsWord(x) && IsWord(y) && |message| < 0x1_0000
    ensures (Exec(c, Chat.INITIAL, [Join(0, Newcomer(7, 1, x, y)), Receive(0, MessageBytes(c, 1, message))])
             == Some(Fault))
            <==> !HasList(Cell(x, y))
  {
    var pl := Newcomer(7, 1, x, y);
    var s := JoinsAndSends(c, pl, MessageBytes(c, 1, message));
    MessageParsed(c, 1, message);
    MessageDefinedIff(s, 0, 1, message);
    HomeHasList(pl);
    hide Inv, Exec, ChatMessage, MessageBytes, ParseRequest, Home, HasList;
  }

  /** A first move leaves the block exactly at the admitted places without a list. */
  lemma MoveLeavesBlockIff(c: Codes, x: int, y: int)
    requires Proper(c) && IsWord(x) && IsWord(y)
    ensures (Exec(c, Chat.INITIAL, [Join(0, Newcomer(7, 1, 51, 51)), Receive(0, MoveBytes(c, 1, x, y))])
             == Some(Fault))
            <==> !IsNonValidSector(x, y) && !HasList(Cell(x, y))
  {
    var s := JoinsAndSends(c, Newcomer(7, 1, 51, 51), MoveBytes(c, 1, x, y));
    MoveParsed(c, 1, x, y);
    MoveDefinedIff(s, 0, 1, x, y);
    hide Inv, Exec, SectorMove, MoveBytes, ParseRequest;
  }

  /** A monitoring client has no login entry: the first one to leave is already undefined. */
  lemma MonitorLeavesBadly(c: Codes)
    ensures Exec(c, Chat.INITIAL, [Join(0, Monitor(7, 1)), Leave(0)]) == Some(Fault)
  {
    var s := FirstJoins(c, Monitor(7, 1));
    LeaveDefinedIff(s, 0);
    hide Inv, OnLeave, Reached;
    Next(c, [Join(0, Monitor(7, 1))], s, Leave(0));
    assert [Join(0, Monitor(7, 1))] + [Leave(0)] == [Join(0, Monitor(7, 1)), Leave(0)];
  }

  /** The second player of an account leaves before the first one it replaced. */
  lemma KickedLeavesLast(c: Codes)
    ensures Exec(c, Chat.INITIAL, [Join(0, Account1(7)), Join(1, Account1(8)), Leave(1), Leave(0)]) == Some(Fault)
  {
    var s2 := BothJoin(c);
    LeaveDefinedIff(s2, 1);
    var s3 := OnLeave(s2, 1).state;
    SecondLeaves(s2, s3);
    hide Inv, OnLeave, Reached;
    var es := [Join(0, Account1(7)), Join(1, Account1(8))];
    Next(c, es, s2, Leave(1));
    LeaveDefinedIff(s3, 0);
    Next(c, es + [Leave(1)], s3, Leave(0));
    assert es + [Leave(1)] + [Leave(0)] == [Join(0, Account1(7)), Join(1, Account1(8)), Leave(1), Leave(0)];
  }

  lemma SecondLeaves(s: State, t: State)
    requires s.roster == [0, 1] && s.players == map[0 := Account1(7), 1 := Account1(8)] && s.logins == map[1 := 1]
    requires OnLeave(s, 1) == Done(t)
    ensures 0 in t.roster && t.players == s.players && 1 !in t.logins
  {
    MembersLeft([0, 1], 1);
  }

  // --- Everybody anywhere -------------------------------------------------------------

  function Standing(q: nat, at: Cell): Player {
    Player(true, false, true, at.x, at.y, q, q, [], [])
  }

  // Places a registered player can stand at.
  predicate Standable(at: Cell) {
    !IsNonValidSector(at.x, at.y) && HasList(at)
  }

  // One player for each place, in order, and nobody told to go.
  ghost predicate Seated(s: State, at: seq<Cell>) {
    && s.roster == Range(|at|)
    && (forall q: nat :: q < |at| ==> q in s.players && s.players[q] == Standing(q, at[q]))
    && (forall a :: a in s.logins ==> 0 <= a < |at|)
    && (forall e :: e in s.out ==> !e.Disconnect?)
  }

  lemma NewcomerJoins(c: Codes, es: seq<Event>, s: State, at: seq<Cell>) returns (t: State)
    requires Reached(c, es, s) && Inv(s) && Seated(s, at) && |at| < NO_MONITOR
    ensures var n, pl := |at|, Newcomer(|at|, |at|, 51, 51);
            && Reached(c, es + [Join(n, pl)], t) && Inv(t)
            && t.roster == Range(n) + [n] && t.players == s.players[n := pl]
            && (forall a :: a in t.logins ==> 0 <= a <= n)
            && (forall e :: e in t.out ==> !e.Disconnect?)
  {
    var n, pl := |at|, Newcomer(|at|, |at|, 51, 51);
    MayJoin(s, at);
    t := Joins(c, es, s, n, pl);
    EnterSays(s, n, pl);
    hide Inv, OnEnter, Arrive, Reached, Enabled;
  }

  lemma MayJoin(s: State, at: seq<Cell>)
    requires Seated(s, at) && |at| < NO_MONITOR
    ensures Enabled(s, Join(|at|, Newcomer(|at|, |at|, 51, 51)))
  {
    RangeHas(|at|, |at|);
    forall q | q in s.roster && q in s.players ensures s.players[q].session != |at| {
      RangeHas(|at|, q);
    }
  }

  lemma NewcomerMoves(c: Codes, es: seq<Event>, s: State, p: Slot, pl: Player, at: Cell) returns (t: State)
    requires Proper(c) && Reached(c, es, s) && Inv(s) && p in s.roster && p in s.players && s.players[p] == pl
    requires pl.login && !pl.registered && IsInt64(pl.account) && Standable(at)
    ensures Reached(c, es + [Receive(p, MoveBytes(c, pl.account, at.x, at.y))], t) && Inv(t)
    ensures t.roster == s.roster && t.logins == s.logins
    ensures t.players == s.players[p := pl.(registered := true, x := at.x, y := at.y)]
    ensures t.out == s.out + [Send(pl.session, ResSectorMove(pl.account, at.x, at.y))]
  {
    var e := Receive(p, MoveBytes(c, pl.account, at.x, at.y));
    MoveParsed(c, pl.account, at.x, at.y);
    MoveDefinedIff(s, p, pl.account, at.x, at.y);
    t := SectorMove(s, p, pl.account, at.x, at.y).state;
    hide Inv, MoveBytes, ParseRequest, Reached;
    assert Step(c, s, e) == Done(t);
    Next(c, es, s, e);
  }

  lemma SeatOne(c: Codes, es: seq<Event>, s: State, at: seq<Cell>, place: Cell) returns (es': seq<Event>, t: State)
    requires Proper(c) && Reached(c, es, s) && Inv(s) && Seated(s, at) && IsInt64(|at|) && Standable(place)
    ensures Reached(c, es', t) && Inv(t) && Seated(t, at + [place])
  {
    var n, pl := |at|, Newcomer(|at|, |at|, 51, 51);
    var u := NewcomerJoins(c, es, s, at);
    es' := es + [Join(n, pl)];
    t := NewcomerMoves(c, es', u, n, pl, place);
    es' := es' + [Receive(n, MoveBytes(c, n, place.x, place.y))];
    hide Inv, Reached, MoveBytes, Standable, Seated;
    OneMore(s, u, t, at, place);
  }

  lemma OneMore(s: State, u: State, t: State, at: seq<Cell>, place: Cell)
    requires Seated(s, at)
    requires u.roster == Range(|at|) + [|at|] && u.players == s.players[|at| := Newcomer(|at|, |at|, 51, 51)]
    requires forall a :: a in u.logins ==> 0 <= a <= |at|
    requires t.roster == u.roster && t.logins == u.logins && t.players == u.players[|at| := Standing(|at|, place)]
    requires forall e :: e in t.out ==> !e.Disconnect?
    ensures Seated(t, at + [place])
  {
    hide Range;
    RangeSnoc(|at|);
    assert |at + [place]| == |at| + 1;
    forall q: nat | q < |at + [place]| ensures t.players[q] == Standing(q, (at + [place])[q]) {
      assert q < |at| ==> s.players[q] == Standing(q, at[q]);
    }
  }

  /** Any number of players may stand at any places that have lists: a run leads there. */
  lemma {:induction false} SeatAll(c: Codes, at: seq<Cell>) returns (es: seq<Event>, s: State)
    requires Proper(c) && IsInt64(|at|) && forall i :: 0 <= i < |at| ==> Standable(at[i])
    ensures Reached(c, es, s) && Inv(s) && Seated(s, at)
    decreases |at|
  {
    if at == [] {
      es, s := [], Chat.INITIAL;
      EveryRun(c, [], Chat.INITIAL);
    } else {
      hide Inv, Reached, Seated, Standable;
      var n := |at| - 1;
      es, s := SeatAll(c, at[..n]);
      es, s := SeatOne(c, es, s, at[..n], at[n]);
      assert at[..n] + [at[n]] == at;
    }
  }

  /**
   For any two places with lists a run puts a sender at one and a receiver at the
   other; there, reaching and being near agree exactly for the undistorted pairs.
   */
  lemma EveryPairMeets(c: Codes, a: Cell, b: Cell) returns (es: seq<Event>, s: State)
    requires Proper(c) && Standable(a) && Standable(b)
    ensures Reached(c, es, s) && 0 in s.roster && 1 in s.roster && 0 in s.players && 1 in s.players
    ensures Place(s.players[0]) == a && Place(s.players[1]) == b && s.players[1].registered
    ensures (InEarshot(s, 0, 1) <==> Near(b, a)) <==> Undistorted(a, b)
  {
    es, s := SeatAll(c, [a, b]);
    RangeHas(2, 0);
    RangeHas(2, 1);
    hide Inv, Reached, Undistorted, InEarshot;
    EarshotIsNearnessIff(c, es, s, 0, 1);
  }

  // --- A crowded sector -----------------------------------------------------------------

  function Repeated(at: Cell, n: nat): (cs: seq<Cell>)
    ensures |cs| == n && forall i :: 0 <= i < n ==> cs[i] == at
  {
    if n == 0 then [] else Repeated(at, n - 1) + [at]
  }

  function UpTo(n: nat): (qs: set<Slot>)
    ensures |qs| == n && forall q: Slot :: q in qs <==> q < n
  {
    if n == 0 then {} else UpTo(n - 1) + {n - 1}
  }

  lemma SeatedTogether(s: State, n: nat)
    requires Inv(s) && Seated(s, Repeated(Cell(0, 0), n))
    ensures |s.cells| == CELLS && |s.cells[0]| == n
    ensures forall i :: 1 <= i < CELLS ==> s.cells[i] == []
  {
    var at := Where(s);
    forall q: Slot ensures q in at <==> q in UpTo(n) {
      RangeHas(n, q);
    }
    assert forall q :: q in at ==> at[q] == 0;
    hide Inv, Seated, Where;
    assert Agree(s.cells, at) by { AgreeOf(s); }
    OneList(s.cells, at, 0);
    SizeOfList(s.cells[0], UpTo(n));
    forall i | 1 <= i < CELLS ensures s.cells[i] == [] {
      OneList(s.cells, at, i);
      SizeOfList(s.cells[i], {});
    }
  }

  lemma AgreeOf(s: State)
    requires Inv(s)
    ensures Agree(s.cells, Where(s))
  {
    hide Agree, Where;
  }

  /**
   A sector that n players have moved to, and a size request: the server stops
   exactly if n modulo 256 is 128 or more.
   */
  lemma CrowdStopsServerIff(c: Codes, n: nat) returns (es: seq<Event>, s: State)
    requires AsksSizes(c) && 0 < n && IsInt64(n)
    ensures Reached(c, es, s) && s.roster == Range(n)
    ensures Exec(c, Chat.INITIAL, es + [Receive(0, SizesBytes(c))]) == Some(Fault) <==> n % 0x100 >= 0x80
  {
    es, s := SeatAll(c, Repeated(Cell(0, 0), n));
    SeatedTogether(s, n);
    SizesExact(s.cells);
    SizesParsed(c);
    RangeHas(n, 0);
    assert (exists i :: 0 <= i < CELLS && |s.cells[i]| % 0x100 >= 0x80) <==> n % 0x100 >= 0x80;
    var e := Receive(0, SizesBytes(c));
    hide Inv, Reached, SizesBytes, ParseRequest, SizesOf, Range, Exec;
    Next(c, es, s, e);
  }
}
