/**
 The chat content and the sector grid as objects updated in place; their methods
 compute the operations of module Chat.
 */
module ChatServer {
  import opened Chat
  import opened Lists
  import opened Packets
  import opened Sectors
  import opened Wrappers

  class SectorArray {
    const listArr: array<seq<Slot>>

    constructor ()
      ensures fresh(listArr) && listArr[..] == EmptyCells(CELLS)
    {
      listArr := new seq<Slot>[CELLS];
      new;
      var y := 0;
      while y < NUM_OF_SECTOR_VERTICAL
        invariant 0 <= y <= NUM_OF_SECTOR_VERTICAL
        invariant forall i :: 0 <= i < y * NUM_OF_SECTOR_VERTICAL ==> listArr[i] == []
      {
        var x := 0;
        while x < NUM_OF_SECTOR_HORIZONTAL
          invariant 0 <= x <= NUM_OF_SECTOR_HORIZONTAL
          invariant forall i :: 0 <= i < Index(Cell(x, y)) ==> listArr[i] == []
        {
          listArr[Index(Cell(x, y))] := [];
          x := x + 1;
        }
        y := y + 1;
      }
      assert listArr[..] == EmptyCells(CELLS);
    }
  }

  lemma {:induction false} EnqueueBoth(players: map<Slot, Player>, a: seq<Slot>, b: seq<Slot>, packet: Packet)
    ensures EnqueueAll(players, a + b, packet) == EnqueueAll(players, a, packet) + EnqueueAll(players, b, packet)
  {
    if a == [] {
      assert a + b == b;
    } else {
      hide Enqueue;
      EnqueueBoth(players, a[1..], b, packet);
      assert (a + b)[1..] == a[1..] + b;
      Assoc(Enqueue(players, a[0], packet), EnqueueAll(players, a[1..], packet), EnqueueAll(players, b, packet));
    }
  }

  class ChatContents {
    const sectors: SectorArray
    var players: map<Slot, Player>
    var playerList: seq<Slot>
    var loginPlayerMap: map<int, Slot>
    var playerNum: int
    var monitoringClientSessionID: int
    var out: seq<Effect>

    ghost function Now(): State
      reads this, sectors.listArr
    {
      State(players, sectors.listArr[..], playerList, loginPlayerMap, playerNum, monitoringClientSessionID, out)
    }

    constructor ()
      ensures fresh(sectors) && fresh(sectors.listArr) && Now() == Chat.INITIAL
    {
      sectors := new SectorArray();
      players, playerList, loginPlayerMap, playerNum, out := map[], [], map[], 0, [];
      monitoringClientSessionID := NO_MONITOR;
    }

    // --- Sector lists ---

    method RegisterClientAtSector(x: int, y: int, p: Slot) returns (ok: bool)
      modifies sectors.listArr
      ensures RegisterAt(old(Now()), Index(Cell(x, y)), p) == if ok then Done(Now()) else Fault
    {
      var i := Index(Cell(x, y));
      ok := 0 <= i < sectors.listArr.Length;
      if ok {
        sectors.listArr[i] := sectors.listArr[i] + [p];
      }
    }

    method RemoveClientAtSector(x: int, y: int, p: Slot) returns (ok: bool)
      modifies sectors.listArr
      ensures RemoveAt(old(Now()), Index(Cell(x, y)), p) == if ok then Done(Now()) else Fault
    {
      var i := Index(Cell(x, y));
      ok := 0 <= i < sectors.listArr.Length;
      if ok {
        sectors.listArr[i] := Without(sectors.listArr[i], p);
      }
    }

    method SendPacketAround(around: SectorAround, packet: Packet) returns (ok: bool)
      requires around.Valid()
      modifies this`out
      ensures ok <==> Recipients(sectors.listArr[..], around.Contents()).Some?
      ensures ok ==> out == old(out)
                     + EnqueueAll(players, Recipients(sectors.listArr[..], around.Contents()).value, packet)
    {
      ghost var cs, cells := around.Contents(), sectors.listArr[..];
      ghost var done: seq<Slot> := [];
      var i := 0;
      assert cs[0..] == cs;
      assert Recipients(cells, cs).Some? ==> done + Recipients(cells, cs).value == Recipients(cells, cs).value;
      while i < around.sectorCount
        invariant 0 <= i <= around.sectorCount
        invariant out == old(out) + EnqueueAll(players, done, packet)
        invariant Recipients(cells, cs) == Behind(done, Recipients(cells, cs[i..]))
      {
        assert cs[i..] == [cs[i]] + cs[i + 1..];
        var at := Index(around.around[i]);
        if !(0 <= at < sectors.listArr.Length) { return false; }
        SendToList(at, packet);
        EnqueueBoth(players, done, cells[at], packet);
        BehindTwice(done, cells[at], Recipients(cells, cs[i + 1..]));
        done := done + cells[at];
        i := i + 1;
      }
      assert cs[i..] == [] && done + [] == done;
      return true;
    }

    ghost function Behind(done: seq<Slot>, r: Option<seq<Slot>>): Option<seq<Slot>> {
      match r
      case None => None
      case Some(qs) => Some(done + qs)
    }

    static lemma BehindTwice(a: seq<Slot>, b: seq<Slot>, r: Option<seq<Slot>>)
      ensures r.Some? ==> a + b + r.value == a + (b + r.value)
    {
    }

    // One list, from its first player to its last.
    method SendToList(at: int, packet: Packet)
      requires 0 <= at < sectors.listArr.Length
      modifies this`out
      ensures out == old(out) + EnqueueAll(players, sectors.listArr[at], packet)
    {
      var list := sectors.listArr[at];
      var i := 0;
      while i < |list|
        invariant 0 <= i <= |list| && out == old(out) + EnqueueAll(players, list[..i], packet)
      {
        var q := list[i];
        if q in players {
          out := out + [Send(players[q].session, packet)];
        }
        EnqueueBoth(players, list[..i], [q], packet);
        assert list[..i + 1] == list[..i] + [q] && [q][1..] == [];
        i := i + 1;
      }
      assert list[..i] == list;
    }

    // --- Content operations ---

    method OnEnter(p: Slot) returns (ok: bool)
      requires p in players
      modifies this`playerList, this`loginPlayerMap, this`playerNum, this`out
      ensures Chat.OnEnter(old(Now()), p) == if ok then Done(Now()) else Fault
    {
      var pl := players[p];
      playerList := playerList + [p];
      out := out + [SetLogin(pl.session)];
      if pl.monitor {
        playerNum := playerNum + 1;
        return true;
      }
      if pl.account in loginPlayerMap {
        if loginPlayerMap[pl.account] !in players { return false; }
        out := out + [Disconnect(players[loginPlayerMap[pl.account]].session)];
        loginPlayerMap := loginPlayerMap - {pl.account};
      }
      out := out + [Send(pl.session, ResLogin(1, pl.account))];
      loginPlayerMap := loginPlayerMap[pl.account := p];
      playerNum := playerNum + 1;
      assert loginPlayerMap == old(loginPlayerMap)[pl.account := p];
      return true;
    }

    // A monitoring client logs in: the one before it is disconnected.
    method MonitorClientLogin(session: int)
      modifies this`monitoringClientSessionID, this`out
      ensures Now() == MonitorLogin(old(Now()), session)
    {
      if monitoringClientSessionID != NO_MONITOR {
        out := out + [Disconnect(monitoringClientSessionID)];
      }
      monitoringClientSessionID := session;
    }

    method OnLeave(p: Slot) returns (ok: bool)
      requires p in players
      modifies this`playerList, this`loginPlayerMap, this`playerNum, this`monitoringClientSessionID, sectors.listArr
      ensures Chat.OnLeave(old(Now()), p) == if ok then Done(Now()) else Fault
    {
      var pl := players[p];
      playerList := Without(playerList, p);
      if pl.monitor && monitoringClientSessionID == pl.session {
        monitoringClientSessionID := NO_MONITOR;
      }
      if !pl.login { return true; }
      if pl.account !in loginPlayerMap { return false; }
      if loginPlayerMap[pl.account] == p {
        loginPlayerMap := loginPlayerMap - {pl.account};
      }
      ok := true;
      if pl.registered {
        ok := RemoveClientAtSector(pl.x, pl.y, p);
      }
      playerNum := playerNum - 1;
    }

    method ReqSectorMove(p: Slot, account: int, x: int, y: int) returns (ok: bool)
      requires p in players
      modifies this`players, this`out, sectors.listArr
      ensures SectorMove(old(Now()), p, account, x, y) == if ok then Done(Now()) else Fault
    {
      var pl := players[p];
      if !pl.login || pl.account != account || IsNonValidSector(x, y) {
        out := out + [Disconnect(pl.session)];
        return true;
      }
      if !pl.registered {
        players := players[p := pl.(registered := true)];
      } else {
        ok := RemoveClientAtSector(pl.x, pl.y, p);
        if !ok { return; }
      }
      players := players[p := pl.(registered := true, x := x, y := y)];
      ok := RegisterClientAtSector(x, y, p);
      out := out + [Send(pl.session, ResSectorMove(account, x, y))];
      assert players == old(players)[p := pl.(registered := true, x := x, y := y)];
    }

    method ReqMessage(p: Slot, account: int, message: seq<byte>) returns (ok: bool)
      requires p in players
      modifies this`out
      ensures ChatMessage(old(Now()), p, account, message) == if ok then Done(Now()) else Fault
    {
      var pl := players[p];
      if !pl.login || pl.account != account {
        out := out + [Disconnect(pl.session)];
        return true;
      }
      var around := new SectorAround();
      around.GetSectorAround(Short(pl.x), Short(pl.y));
      ok := SendPacketAround(around, ResMessage(account, pl.id, pl.nick, message));
    }

    method ReqSectorInfo(p: Slot) returns (ok: bool)
      requires p in players
      modifies this`out
      ensures SectorSizes(old(Now()), p) == if ok then Done(Now()) else Fault
    {
      var sizes: seq<int> := [];
      ghost var cells := sectors.listArr[..];
      var i := 0;
      assert cells[0..] == cells;
      assert SizesOf(cells).Some? ==> sizes + SizesOf(cells).value == SizesOf(cells).value;
      while i < sectors.listArr.Length
        invariant 0 <= i <= |cells| && out == old(out)
        invariant SizesOf(cells) == AfterSizes(sizes, SizesOf(cells[i..]))
      {
        assert cells[i..][0] == cells[i] && cells[i..][1..] == cells[i + 1..];
        var size := |sectors.listArr[i]| % 0x100;
        if size >= 0x80 { return false; }
        AfterSizesTwice(sizes, size, SizesOf(cells[i + 1..]));
        sizes := sizes + [size];
        i := i + 1;
      }
      assert cells[i..] == [] && sizes + [] == sizes;
      out := out + [Sizes(players[p].session, sizes)];
      return true;
    }

    static ghost function AfterSizes(done: seq<int>, r: Option<seq<int>>): Option<seq<int>> {
      match r
      case None => None
      case Some(ns) => Some(done + ns)
    }

    static lemma AfterSizesTwice(a: seq<int>, n: int, r: Option<seq<int>>)
      ensures r.Some? ==> a + [n] + r.value == a + ([n] + r.value)
    {
    }

    method OnRecv(c: Codes, p: Slot, packet: seq<byte>) returns (ok: bool)
      requires p in players
      modifies this`players, this`out, sectors.listArr
      ensures Chat.OnRecv(c, old(Now()), p, packet) == if ok then Done(Now()) else Fault
    {
      ok := true;
      match ParseRequest(c, packet) {
        case Move(account, x, y) => ok := ReqSectorMove(p, account, x, y);
        case Message(account, message) => ok := ReqMessage(p, account, message);
        case Heartbeat =>
        case SectorInfo => ok := ReqSectorInfo(p);
        case Reject => out := out + [Disconnect(players[p].session)];
      }
    }
  }
}
