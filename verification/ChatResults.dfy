/**
 What the invariant of the chat content gives: who hears a message, who may stay,
 where the code leaves its defined behaviour.
 */
module ChatResults {
  import opened Chat
  import opened ChatProofs
  import opened Packets
  import opened Sectors

  // --- Who hears a message -----------------------------------------------------

  lemma {:induction false} RecipientsCount(cells: seq<seq<Slot>>, at: map<Slot, int>, cs: seq<Cell>, q: Slot)
    requires Agree(cells, at) && Increasing(cs) && Recipients(cells, cs).Some?
    ensures multiset(Recipients(cells, cs).value)[q] == if q in at && Visits(cs, at[q]) then 1 else 0
  {
    if cs != [] {
      RecipientsCount(cells, at, cs[1..], q);
      VisitsTail(cs, if q in at then at[q] else 0);
      hide Index, Visits, Increasing;
      assert multiset(cells[Index(cs[0])])[q] == if q in at && at[q] == Index(cs[0]) then 1 else 0;
    }
  }

  lemma VisitsTail(cs: seq<Cell>, i: int)
    requires cs != [] && Increasing(cs)
    ensures Visits(cs, i) <==> Index(cs[0]) == i || Visits(cs[1..], i)
    ensures !(Index(cs[0]) == i && Visits(cs[1..], i))
  {
    hide Index;
    if Visits(cs[1..], i) {
      var c :| c in cs[1..] && Index(c) == i;
      assert c in cs;
      var k :| 0 <= k < |cs[1..]| && cs[1..][k] == c;
      assert cs[k + 1] == c;
    }
  }

  lemma {:induction false} RecipientsIff(cells: seq<seq<Slot>>, cs: seq<Cell>)
    ensures Recipients(cells, cs).Some? <==> forall c :: c in cs ==> 0 <= Index(c) < |cells|
  {
    if cs != [] {
      RecipientsIff(cells, cs[1..]);
      assert cs == [cs[0]] + cs[1..];
    }
  }

  lemma ShortThenWord(v: int)
    requires IsWord(v)
    ensures Word(Short(v)) == v && IsShort(Short(v)) && (v < 0x8000 ==> Short(v) == v)
  {
  }

  lemma AroundOf(pl: Player)
    requires IsWord(pl.x) && IsWord(pl.y)
    ensures Around(pl) == Visited(Short(pl.x), Short(pl.y))
    ensures Word(Short(pl.x)) == pl.x && Word(Short(pl.y)) == pl.y
    ensures (forall c :: c in Around(pl) ==> 0 <= Index(c) < CELLS) <==> 0 <= Home(pl) < CELLS
    ensures 0 <= Home(pl) < CELLS ==> Increasing(Around(pl)) && Short(pl.x) == pl.x && Short(pl.y) == pl.y
  {
    var x, y := Short(pl.x), Short(pl.y);
    ShortThenWord(pl.x);
    ShortThenWord(pl.y);
    hide Short, Word, Visited, Increasing;
    VisitedExactly(x, y, Cell(pl.x, pl.y));
    forall c | c in Visited(x, y) ensures 0 <= Home(pl) < CELLS ==> 0 <= Index(c) < CELLS {
      VisitedExactly(x, y, c);
    }
    if 0 <= Home(pl) < CELLS {
      VisitedIncreasing(x, y);
    }
  }

  /** A chat request completes exactly when it is refused or the sender's recorded sector has a list. */
  lemma MessageDefinedIff(s: State, p: Slot, account: int, message: seq<byte>)
    requires Inv(s) && p in s.roster && p in s.players
    ensures ChatMessage(s, p, account, message).Done?
            <==> (Accepted(s.players[p], account) ==> 0 <= Home(s.players[p]) < CELLS)
  {
    AroundOf(s.players[p]);
    RecipientsIff(s.cells, Around(s.players[p]));
  }

  lemma {:induction false} EnqueueCount(s: State, qs: seq<Slot>, packet: Packet, q: Slot)
    requires Roster(s) && q in s.roster && forall r :: r in qs ==> r in s.roster
    ensures multiset(EnqueueAll(s.players, qs, packet))[Send(s.players[q].session, packet)] == multiset(qs)[q]
  {
    if qs != [] {
      EnqueueCount(s, qs[1..], packet, q);
      assert qs == [qs[0]] + qs[1..];
      assert qs[0] in s.roster;
    }
  }

  // The list a standing player is in lies among those the sender's message visits.
  ghost predicate InEarshot(s: State, p: Slot, q: Slot)
    requires p in s.players
  {
    q in Where(s) && Visits(Around(s.players[p]), Where(s)[q])
  }

  /**
   An accepted message is enqueued once for every player whose list is visited,
   and for no other player of the chat.
   */
  lemma MessageReaches(c: Codes, es: seq<Event>, s: State, p: Slot, account: int, message: seq<byte>, q: Slot)
    requires Reached(c, es, s) && p in s.roster && q in s.roster
    requires p in s.players && q in s.players
    requires Accepted(s.players[p], account) && 0 <= Home(s.players[p]) < CELLS
    ensures ChatMessage(s, p, account, message).Done?
    ensures var t := ChatMessage(s, p, account, message).state;
            var packet := ResMessage(account, s.players[p].id, s.players[p].nick, message);
            s.out <= t.out && multiset(t.out[|s.out|..])[Send(s.players[q].session, packet)]
                              == if InEarshot(s, p, q) then 1 else 0
  {
    EveryRun(c, es, s);
    MessageDefinedIff(s, p, account, message);
    var pl := s.players[p];
    AroundOf(pl);
    var qs := Recipients(s.cells, Around(pl)).value;
    forall r | r in qs ensures r in s.roster {
      RecipientsCount(s.cells, Where(s), Around(pl), r);
    }
    RecipientsCount(s.cells, Where(s), Around(pl), q);
    var packet := ResMessage(account, pl.id, pl.nick, message);
    EnqueueCount(s, qs, packet, q);
    var t := ChatMessage(s, p, account, message).state;
    assert t.out[|s.out|..] == EnqueueAll(s.players, qs, packet);
  }

  function Place(pl: Player): Cell {
    Cell(pl.x, pl.y)
  }

  lemma EarshotReaches(c: Codes, es: seq<Event>, s: State, p: Slot, q: Slot)
    requires Reached(c, es, s) && p in s.roster && q in s.roster && p in s.players && q in s.players
    requires 0 <= Home(s.players[p]) < CELLS
    ensures HasList(Place(s.players[p]))
    ensures s.players[q].registered ==>
              HasList(Place(s.players[q])) && !IsNonValidSector(s.players[q].x, s.players[q].y)
    ensures InEarshot(s, p, q) <==>
              s.players[q].registered
              && Reaches(Place(s.players[p]), Place(s.players[q]))
  {
    EveryRun(c, es, s);
    AroundOf(s.players[p]);
    if s.players[q].registered {
      assert q in Where(s) && Where(s)[q] == Index(Place(s.players[q]));
    }
  }

  /**
   For every sender whose recorded sector has a list: the players reached are those
   registered in that list, or in the list of a grid cell next to the recorded sector.
   */
  lemma EarshotExactly(c: Codes, es: seq<Event>, s: State, p: Slot, q: Slot)
    requires Reached(c, es, s) && p in s.roster && q in s.roster && p in s.players && q in s.players
    requires 0 <= Home(s.players[p]) < CELLS
    ensures var a, b := Place(s.players[p]), Place(s.players[q]);
            InEarshot(s, p, q) <==> s.players[q].registered && (Seat(b) == Seat(a) || Near(Seat(b), a))
  {
    EarshotReaches(c, es, s, p, q);
    hide Reaches, Seat, InEarshot;
    if s.players[q].registered {
      ReachesExactly(Place(s.players[p]), Place(s.players[q]));
    }
  }

  /** Being reached is being registered within one sector in each axis exactly for the undistorted pairs of places. */
  lemma EarshotIsNearnessIff(c: Codes, es: seq<Event>, s: State, p: Slot, q: Slot)
    requires Reached(c, es, s) && p in s.roster && q in s.roster && p in s.players && q in s.players
    requires 0 <= Home(s.players[p]) < CELLS
    ensures var a, b := Place(s.players[p]), Place(s.players[q]);
            (InEarshot(s, p, q) <==> s.players[q].registered && Near(b, a))
            <==> (s.players[q].registered ==> Undistorted(a, b))
  {
    EarshotReaches(c, es, s, p, q);
    hide Reaches, Undistorted, InEarshot;
    if s.players[q].registered {
      PairFaithfulIff(Place(s.players[p]), Place(s.players[q]));
    }
  }

  ghost predicate OnGrid(pl: Player) {
    InGrid(Cell(pl.x, pl.y))
  }

  /** Between players on the grid, earshot is being registered within one sector in each axis. */
  lemma EarshotIsNearness(c: Codes, es: seq<Event>, s: State, p: Slot, q: Slot)
    requires Reached(c, es, s) && p in s.roster && q in s.roster && p in s.players && q in s.players
    requires OnGrid(s.players[p]) && (s.players[q].registered ==> OnGrid(s.players[q]))
    ensures InEarshot(s, p, q) <==>
              s.players[q].registered
              && Near(Cell(s.players[q].x, s.players[q].y), Cell(s.players[p].x, s.players[p].y))
  {
    EarshotIsNearnessIff(c, es, s, p, q);
  }

  /**
   Off the grid this fails: the admitted sector 50 of a row shares the list of
   the next row's sector 0, so a player there is heard from 50 sectors away.
   */
  lemma EdgeIsHeardFarAway(c: Codes, es: seq<Event>, s: State, p: Slot, q: Slot)
    requires Reached(c, es, s) && p in s.roster && q in s.roster && p in s.players && q in s.players
    requires s.players[q].registered && s.players[q].x == 50 && 0 <= s.players[q].y < 49
    requires s.players[p].x == 0 && s.players[p].y == s.players[q].y + 1
    ensures !IsNonValidSector(s.players[q].x, s.players[q].y)
    ensures InEarshot(s, p, q)
    ensures !Near(Cell(s.players[q].x, s.players[q].y), Cell(s.players[p].x, s.players[p].y))
  {
    EarshotExactly(c, es, s, p, q);
    EdgeSeat(Place(s.players[p]));
    EdgeSeat(Place(s.players[q]));
    hide InEarshot, Seat, Reached;
  }

  /** In the other direction too: a sender at sector 50 reaches the next row's sector 0. */
  lemma EdgeReachesFarAway(c: Codes, es: seq<Event>, s: State, p: Slot, q: Slot)
    requires Reached(c, es, s) && p in s.roster && q in s.roster && p in s.players && q in s.players
    requires s.players[p].x == 50 && 0 <= s.players[p].y < 49
    requires s.players[q].registered && s.players[q].x == 0 && s.players[q].y == s.players[p].y + 1
    ensures InEarshot(s, p, q)
    ensures !Near(Cell(s.players[q].x, s.players[q].y), Cell(s.players[p].x, s.players[p].y))
  {
    EarshotExactly(c, es, s, p, q);
    EdgeSeat(Place(s.players[p]));
    EdgeSeat(Place(s.players[q]));
    hide InEarshot, Seat, Reached;
  }

  /** And messages get lost: from sector 49 the neighbour at sector 50 is not reached. */
  lemma EdgeIsMissedNearby(c: Codes, es: seq<Event>, s: State, p: Slot, q: Slot)
    requires Reached(c, es, s) && p in s.roster && q in s.roster && p in s.players && q in s.players
    requires s.players[p].x == 49 && 0 <= s.players[p].y < 49
    requires s.players[q].registered && s.players[q].x == 50 && s.players[q].y == s.players[p].y
    ensures !InEarshot(s, p, q)
    ensures Near(Cell(s.players[q].x, s.players[q].y), Cell(s.players[p].x, s.players[p].y))
  {
    EarshotExactly(c, es, s, p, q);
    EdgeSeat(Place(s.players[p]));
    EdgeSeat(Place(s.players[q]));
    hide InEarshot, Seat, Reached;
  }

  // --- One player for each account ------------------------------------------------

  /** Of two players on one account, one has been told to disconnect. */
  lemma OneCurrentPlayer(c: Codes, es: seq<Event>, s: State, p: Slot, q: Slot)
    requires Reached(c, es, s) && p in s.roster && q in s.roster && p != q
    requires p in s.players && q in s.players && !s.players[p].monitor && !s.players[q].monitor
    requires s.players[p].account == s.players[q].account
    ensures Disconnect(s.players[p].session) in s.out || Disconnect(s.players[q].session) in s.out
  {
    EveryRun(c, es, s);
    assert CurrentOrKicked(s, p) && CurrentOrKicked(s, q);
  }

  /** Leaving is undefined only for a monitoring client or a player already told to disconnect. */
  lemma OnlyKickedLeaveBadly(c: Codes, es: seq<Event>, s: State, p: Slot)
    requires Reached(c, es, s) && p in s.roster && p in s.players
    ensures OnLeave(s, p).Done? <==> s.players[p].account in s.logins
    ensures OnLeave(s, p).Fault? ==> s.players[p].monitor || Disconnect(s.players[p].session) in s.out
  {
    EveryRun(c, es, s);
    LeaveDefinedIff(s, p);
    assert CurrentOrKicked(s, p);
  }

  /** Of two monitoring clients, one has been told to disconnect. */
  lemma OneMonitor(c: Codes, es: seq<Event>, s: State, p: Slot, q: Slot)
    requires Reached(c, es, s) && p in s.roster && q in s.roster && p != q
    requires p in s.players && q in s.players && s.players[p].monitor && s.players[q].monitor
    ensures Disconnect(s.players[p].session) in s.out || Disconnect(s.players[q].session) in s.out
  {
    EveryRun(c, es, s);
    assert s.players[p].session != s.players[q].session;
  }

  // --- The sizes packet -------------------------------------------------------------

  function Total(cells: seq<seq<Slot>>): nat {
    if cells == [] then 0 else |cells[0]| + Total(cells[1..])
  }

  function Sum(ns: seq<int>): int {
    if ns == [] then 0 else ns[0] + Sum(ns[1..])
  }

  lemma {:induction false} TotalSnoc(cells: seq<seq<Slot>>, qs: seq<Slot>)
    ensures Total(cells + [qs]) == Total(cells) + |qs|
  {
    if cells == [] {
      assert [qs][1..] == [];
    } else {
      TotalSnoc(cells[1..], qs);
      assert (cells + [qs])[1..] == cells[1..] + [qs];
    }
  }

  lemma {:induction false} SizeOfList(qs: seq<Slot>, ps: set<Slot>)
    requires NoRepeats(qs) && forall p :: p in ps <==> p in qs
    ensures |qs| == |ps|
  {
    if qs == [] {
      assert ps == {};
    } else {
      var p, tail := qs[0], qs[1..];
      assert qs == [p] + tail;
      assert forall r :: multiset(qs)[r] == multiset(tail)[r] + if r == p then 1 else 0;
      assert p in ps && multiset(qs)[p] <= 1;
      assert p !in tail;
      SizeOfList(tail, ps - {p});
    }
  }

  function Below(at: map<Slot, int>, n: int): set<Slot> {
    set p | p in at && at[p] < n
  }

  lemma OneList(cells: seq<seq<Slot>>, at: map<Slot, int>, i: nat)
    requires Agree(cells, at) && i < CELLS
    ensures NoRepeats(cells[i]) && forall p :: p in (set r | r in at && at[r] == i) <==> p in cells[i]
  {
    forall p ensures multiset(cells[i])[p] <= 1 && (p in cells[i] <==> p in at && at[p] == i) {
      assert multiset(cells[i])[p] == if p in at && at[p] == i then 1 else 0;
      assert p in cells[i] <==> multiset(cells[i])[p] > 0;
    }
  }

  lemma {:induction false} TotalBelow(cells: seq<seq<Slot>>, at: map<Slot, int>, n: nat)
    requires Agree(cells, at) && n <= CELLS
    ensures Total(cells[..n]) == |Below(at, n)|
  {
    if n == 0 {
      assert Below(at, 0) == {};
    } else {
      TotalBelow(cells, at, n - 1);
      assert cells[..n] == cells[..n - 1] + [cells[n - 1]];
      TotalSnoc(cells[..n - 1], cells[n - 1]);
      var here := set p | p in at && at[p] == n - 1;
      OneList(cells, at, n - 1);
      SizeOfList(cells[n - 1], here);
      assert Below(at, n) == Below(at, n - 1) + here && Below(at, n - 1) !! here;
    }
  }

  /** In every reachable state the sector lists together hold each registered player once. */
  lemma ListsHoldEveryone(c: Codes, es: seq<Event>, s: State)
    requires Reached(c, es, s)
    ensures Total(s.cells) == |Where(s)|
  {
    EveryRun(c, es, s);
    TotalBelow(s.cells, Where(s), CELLS);
    assert s.cells[..CELLS] == s.cells;
    assert Below(Where(s), CELLS) == Where(s).Keys;
  }

  lemma {:induction false} SizesOfIff(cells: seq<seq<Slot>>)
    ensures SizesOf(cells).Some? <==> forall i :: 0 <= i < |cells| ==> |cells[i]| % 0x100 < 0x80
  {
    if cells != [] {
      SizesOfIff(cells[1..]);
      assert cells == [cells[0]] + cells[1..];
    }
  }

  lemma {:induction false} SizesAreSizes(cells: seq<seq<Slot>>)
    requires SizesOf(cells).Some?
    ensures |SizesOf(cells).value| == |cells|
    ensures forall i :: 0 <= i < |cells| ==> SizesOf(cells).value[i] == |cells[i]| % 0x100
  {
    if cells != [] {
      SizesAreSizes(cells[1..]);
      assert cells == [cells[0]] + cells[1..];
    }
  }

  // How often the sizes wrap around their byte, all lists together.
  function Wraps(cells: seq<seq<Slot>>): nat {
    if cells == [] then 0 else |cells[0]| / 0x100 + Wraps(cells[1..])
  }

  lemma {:induction false} WrapsIff(cells: seq<seq<Slot>>)
    ensures Wraps(cells) == 0 <==> forall i :: 0 <= i < |cells| ==> |cells[i]| < 0x100
  {
    if cells != [] {
      WrapsIff(cells[1..]);
      assert cells == [cells[0]] + cells[1..];
    }
  }

  lemma {:induction false} SumOfSizes(cells: seq<seq<Slot>>)
    requires SizesOf(cells).Some?
    ensures Total(cells) == Sum(SizesOf(cells).value) + 0x100 * Wraps(cells)
  {
    if cells != [] {
      SumOfSizes(cells[1..]);
      var n, ns := |cells[0]| % 0x100, SizesOf(cells[1..]).value;
      assert ([n] + ns)[1..] == ns;
    }
  }

  lemma SizesExact(cells: seq<seq<Slot>>)
    ensures SizesOf(cells).Some? <==> forall i :: 0 <= i < |cells| ==> |cells[i]| % 0x100 < 0x80
    ensures SizesOf(cells).Some? ==> |SizesOf(cells).value| == |cells|
    ensures SizesOf(cells).Some? ==> forall i :: 0 <= i < |cells| ==> SizesOf(cells).value[i] == |cells[i]| % 0x100
    ensures SizesOf(cells).Some? ==> (Sum(SizesOf(cells).value) - Total(cells)) % 0x100 == 0
    ensures SizesOf(cells).Some? ==>
              (Sum(SizesOf(cells).value) == Total(cells) <==> forall i :: 0 <= i < |cells| ==> |cells[i]| < 0x80)
    ensures SizesOf(cells).Some? ==> Sum(SizesOf(cells).value) <= Total(cells)
  {
    SizesOfIff(cells);
    hide SizesOf, Sum, Total, Wraps;
    if SizesOf(cells).Some? {
      SizesAreSizes(cells);
      SumOfSizes(cells);
      WrapsIff(cells);
      MultipleOfByte(Wraps(cells));
      forall i | 0 <= i < |cells| ensures |cells[i]| < 0x100 <==> |cells[i]| < 0x80 {
        SmallByte(|cells[i]|);
      }
    }
  }

  lemma MultipleOfByte(w: nat)
    ensures -(0x100 * w) % 0x100 == 0
  {
  }

  lemma SmallByte(n: nat)
    requires n % 0x100 < 0x80
    ensures n < 0x100 <==> n < 0x80
  {
  }

  /** The sizes sent add up to the registered players exactly when no list has 128 or more. */
  lemma SizesAddUp(c: Codes, es: seq<Event>, s: State)
    requires Reached(c, es, s) && SizesOf(s.cells).Some?
    ensures Sum(SizesOf(s.cells).value) == |Where(s)| <==> forall i :: 0 <= i < |s.cells| ==> |s.cells[i]| < 0x80
  {
    ListsHoldEveryone(c, es, s);
    SizesExact(s.cells);
  }
}
