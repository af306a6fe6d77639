/** Every run of the chat content keeps the invariant of module Chat; what follows for messages, leaving and sizes. */
module ChatProofs {
  import opened Chat
  import opened Packets
  import opened Sectors

  lemma {:induction false} WithoutOne(qs: seq<Slot>, p: Slot)
    ensures multiset(Without(qs, p)) == multiset(qs) - multiset{p}
    ensures |Without(qs, p)| == |qs| - if p in qs then 1 else 0
  {
    if qs != [] {
      SplitFirst(qs);
      if qs[0] != p {
        WithoutOne(qs[1..], p);
        assert Without(qs, p) == [qs[0]] + Without(qs[1..], p);
        SplitFirst(Without(qs, p));
      }
    }
  }

  lemma SplitFirst(qs: seq<Slot>)
    requires qs != []
    ensures multiset(qs) == multiset{qs[0]} + multiset(qs[1..])
    ensures forall p :: p in qs <==> p == qs[0] || p in qs[1..]
  {
    assert qs == [qs[0]] + qs[1..];
  }

  lemma MembersLeft(qs: seq<Slot>, p: Slot)
    requires NoRepeats(qs)
    ensures NoRepeats(Without(qs, p))
    ensures forall q :: q in Without(qs, p) <==> q in qs && q != p
  {
    WithoutOne(qs, p);
    var rest := Without(qs, p);
    forall q ensures q in rest <==> q in qs && q != p {
      assert q in rest <==> multiset(rest)[q] > 0;
      assert multiset(qs)[q] <= 1;
    }
  }

  // --- The sector lists ------------------------------------------------------

  lemma AgreeRemove(cells: seq<seq<Slot>>, at: map<Slot, int>, p: Slot)
    requires Agree(cells, at) && p in at
    ensures Agree(cells[at[p] := Without(cells[at[p]], p)], at - {p})
  {
    WithoutOne(cells[at[p]], p);
  }

  lemma AgreeRegister(cells: seq<seq<Slot>>, at: map<Slot, int>, p: Slot, i: int)
    requires Agree(cells, at) && p !in at && 0 <= i < CELLS
    ensures Agree(cells[i := cells[i] + [p]], at[p := i])
  {
  }

  // --- One step at a time ------------------------------------------------------

  lemma RosterAdd(s: State, p: Slot, pl: Player)
    requires Roster(s) && Enabled(s, Join(p, pl))
    ensures Roster(s.(players := s.players[p := pl], roster := s.roster + [p], playerNum := s.playerNum + 1))
  {
    assert multiset(s.roster)[p] == 0;
  }

  lemma ArriveKeepsOut(s: State, p: Slot, pl: Player)
    ensures var t := Arrive(s, p, pl);
            && t.players == s.players[p := pl] && t.roster == s.roster && t.cells == s.cells
            && t.logins == s.logins && t.playerNum == s.playerNum && s.out <= t.out
            && t.monitoring == (if pl.monitor then pl.session else s.monitoring)
            && (pl.monitor && s.monitoring != NO_MONITOR ==> Disconnect(s.monitoring) in t.out)
  {
    if pl.monitor && s.monitoring != NO_MONITOR {
      assert Arrive(s, p, pl).out[|s.out|] == Disconnect(s.monitoring);
    }
  }

  // What entering does, apart from the sector lists, which stay.
  lemma EnterEffects(s: State, p: Slot, pl: Player)
    requires Inv(s) && Enabled(s, Join(p, pl))
    ensures var o := OnEnter(Arrive(s, p, pl), p);
            && o.Done?
            && var t := o.state;
            && t.players == s.players[p := pl] && t.roster == s.roster + [p] && t.playerNum == s.playerNum + 1
            && t.cells == s.cells && t.monitoring == Arrive(s, p, pl).monitoring
            && t.logins == (if pl.monitor then s.logins else s.logins[pl.account := p])
            && Arrive(s, p, pl).out <= t.out
            && (!pl.monitor && pl.account in s.logins ==>
                  Entered(s, pl.account) && Disconnect(s.players[s.logins[pl.account]].session) in t.out)
  {
    ArriveKeepsOut(s, p, pl);
    var u := Arrive(s, p, pl);
    if !pl.monitor && pl.account in s.logins {
      assert Entered(s, pl.account);
      hide Arrive;
      assert OnEnter(u, p).state.out[|u.out| + 1] == Disconnect(s.players[s.logins[pl.account]].session);
    }
  }

  lemma EnterKeeps(s: State, p: Slot, pl: Player)
    requires Inv(s) && Enabled(s, Join(p, pl))
    ensures var o := OnEnter(Arrive(s, p, pl), p); o.Done? && Inv(o.state)
  {
    EnterEffects(s, p, pl);
    ArriveKeepsOut(s, p, pl);
    var t := OnEnter(Arrive(s, p, pl), p).state;
    hide OnEnter, Arrive;
    RosterAdd(s, p, pl);
    RosterOnly(s.(players := s.players[p := pl], roster := s.roster + [p], playerNum := s.playerNum + 1), t);
    EnterPlaced(s, p, pl, t);
    EnterLogins(s, p, pl, t);
    EnterMonitors(s, p, pl, t);
  }

  lemma EnterPlaced(s: State, p: Slot, pl: Player, t: State)
    requires Placed(s) && Enabled(s, Join(p, pl))
    requires t.players == s.players[p := pl] && t.roster == s.roster + [p] && t.cells == s.cells
    ensures Placed(t)
  {
    hide Agree;
    assert Where(t) == Where(s);
  }

  lemma RosterOnly(s: State, t: State)
    requires Roster(s) && t.roster == s.roster && t.players == s.players && t.playerNum == s.playerNum
    ensures Roster(t)
  {
  }

  lemma EnterLogins(s: State, p: Slot, pl: Player, t: State)
    requires Roster(s) && Logins(s) && Enabled(s, Join(p, pl))
    requires t.players == s.players[p := pl] && t.roster == s.roster + [p] && s.out <= t.out
    requires t.logins == if pl.monitor then s.logins else s.logins[pl.account := p]
    requires !pl.monitor && pl.account in s.logins ==>
               Entered(s, pl.account) && Disconnect(s.players[s.logins[pl.account]].session) in t.out
    ensures Logins(t)
  {
    forall a | a in t.logins ensures Entered(t, a) {
      if a in s.logins {
        assert Entered(s, a);
      }
    }
    forall q | q in t.roster ensures q in t.players && CurrentOrKicked(t, q) {
      if q != p {
        assert q in s.roster && CurrentOrKicked(s, q);
        assert forall e :: e in s.out ==> e in t.out;
      }
    }
  }

  lemma EnterMonitors(s: State, p: Slot, pl: Player, t: State)
    requires Roster(s) && Monitors(s) && Enabled(s, Join(p, pl))
    requires t.players == s.players[p := pl] && t.roster == s.roster + [p] && s.out <= t.out
    requires t.monitoring == if pl.monitor then pl.session else s.monitoring
    requires pl.monitor && s.monitoring != NO_MONITOR ==> Disconnect(s.monitoring) in t.out
    ensures Monitors(t)
  {
    assert forall e :: e in s.out ==> e in t.out;
    if pl.monitor {
      assert Watches(t, p);
    } else if s.monitoring != NO_MONITOR {
      var q :| Watches(s, q);
      assert Watches(t, q);
    }
    forall q | q in t.roster && q in t.players && t.players[q].monitor
      ensures Watches(t, q) || Disconnect(t.players[q].session) in t.out
    {
      if q != p {
        assert q in s.roster && q in s.players && (Watches(s, q) || Disconnect(s.players[q].session) in s.out);
      }
    }
  }

  /** A player leaves without incident exactly when its account has an entry. */
  lemma LeaveDefinedIff(s: State, p: Slot)
    requires Inv(s) && p in s.roster
    ensures p in s.players
    ensures OnLeave(s, p).Done? <==> s.players[p].account in s.logins
  {
    var pl := s.players[p];
    if pl.registered {
      assert p in Where(s);
    }
  }

  lemma LeaveKeeps(s: State, p: Slot)
    requires Inv(s) && p in s.roster && p in s.players && s.players[p].account in s.logins
    ensures OnLeave(s, p).Done? && Inv(OnLeave(s, p).state)
  {
    LeaveDefinedIff(s, p);
    LeaveRoster(s, p, OnLeave(s, p).state);
    LeavePlaced(s, p, OnLeave(s, p).state);
    LeaveLogins(s, p, OnLeave(s, p).state);
    LeaveMonitors(s, p, OnLeave(s, p).state);
  }

  lemma LeaveRoster(s: State, p: Slot, t: State)
    requires Roster(s) && p in s.roster && p in s.players && OnLeave(s, p) == Done(t)
    ensures Roster(t)
  {
    MembersLeft(s.roster, p);
    WithoutOne(s.roster, p);
    assert t.roster == Without(s.roster, p) && t.players == s.players && t.playerNum == s.playerNum - 1;
    hide OnLeave, NoRepeats, Without;
  }

  lemma LeavePlaced(s: State, p: Slot, t: State)
    requires Roster(s) && Placed(s) && p in s.roster && p in s.players && OnLeave(s, p) == Done(t)
    ensures Placed(t)
  {
    MembersLeft(s.roster, p);
    LeaveFields(s, p, t);
    hide OnLeave, Agree, Without, Home;
    assert Where(t) == Where(s) - {p};
    if s.players[p].registered {
      assert p in Where(s);
      AgreeRemove(s.cells, Where(s), p);
    } else {
      assert Where(s) - {p} == Where(s);
    }
  }

  lemma LeaveFields(s: State, p: Slot, t: State)
    requires p in s.players && s.players[p].login && OnLeave(s, p) == Done(t)
    ensures t.roster == Without(s.roster, p) && t.players == s.players && t.cells == Left(s, p) && t.out == s.out
    ensures t.monitoring ==
              if s.players[p].monitor && s.monitoring == s.players[p].session then NO_MONITOR else s.monitoring
  {
    hide Without, Home;
  }

  lemma LeaveLogins(s: State, p: Slot, t: State)
    requires Inv(s) && p in s.roster && p in s.players && OnLeave(s, p) == Done(t)
    ensures Logins(t)
  {
    MembersLeft(s.roster, p);
    forall a | a in t.logins ensures Entered(t, a) {
      assert Entered(s, a);
    }
    forall q | q in t.roster ensures q in t.players && CurrentOrKicked(t, q) {
      assert q in s.roster && CurrentOrKicked(s, q);
    }
  }

  lemma LeaveMonitors(s: State, p: Slot, t: State)
    requires Roster(s) && Monitors(s) && p in s.roster && p in s.players && OnLeave(s, p) == Done(t)
    ensures Monitors(t)
  {
    MembersLeft(s.roster, p);
    LeaveFields(s, p, t);
    hide OnLeave, Without, Left, NoRepeats;
    if t.monitoring != NO_MONITOR {
      var q :| Watches(s, q);
      assert q != p && Watches(t, q);
    }
    forall q | q in t.roster && q in t.players && t.players[q].monitor
      ensures Watches(t, q) || Disconnect(t.players[q].session) in t.out
    {
      assert q in s.roster && q != p && (Watches(s, q) || Disconnect(s.players[q].session) in s.out);
    }
  }

  lemma SameMonitors(s: State, t: State)
    requires Monitors(s) && t.roster == s.roster && t.monitoring == s.monitoring && s.out <= t.out
    requires forall q :: q in s.roster && q in s.players ==>
               q in t.players && t.players[q].monitor == s.players[q].monitor
               && t.players[q].session == s.players[q].session
    requires forall q :: q in t.players ==> q in s.players
    ensures Monitors(t)
  {
    assert forall e :: e in s.out ==> e in t.out;
    if s.monitoring != NO_MONITOR {
      var q :| Watches(s, q);
      assert Watches(t, q);
    }
    forall q | q in t.roster && q in t.players && t.players[q].monitor
      ensures Watches(t, q) || Disconnect(t.players[q].session) in t.out
    {
      assert q in s.roster && (Watches(s, q) || Disconnect(s.players[q].session) in s.out);
    }
  }

  lemma EmitKeeps(s: State, es: seq<Effect>)
    requires Inv(s)
    ensures Inv(Emit(s, es))
  {
    var t := Emit(s, es);
    assert Where(t) == Where(s);
    SameMonitors(s, t);
    forall a | a in t.logins ensures Entered(t, a) {
      assert Entered(s, a);
    }
    forall q | q in t.roster ensures q in t.players && CurrentOrKicked(t, q) {
      assert CurrentOrKicked(s, q);
    }
  }

  // A move that passes the checks.
  ghost predicate MoveAllowed(s: State, p: Slot, account: int, x: int, y: int)
    requires p in s.players
  {
    Accepted(s.players[p], account) && !IsNonValidSector(x, y)
  }

  /** A move completes exactly when it is refused or its sector has a list. */
  lemma MoveDefinedIff(s: State, p: Slot, account: int, x: int, y: int)
    requires Inv(s) && p in s.roster && p in s.players
    ensures SectorMove(s, p, account, x, y).Done?
            <==> (MoveAllowed(s, p, account, x, y) ==> 0 <= Index(Cell(x, y)) < CELLS)
  {
    if s.players[p].registered {
      assert p in Where(s);
    }
  }

  lemma MoveKeeps(s: State, p: Slot, account: int, x: int, y: int)
    requires Inv(s) && p in s.roster && p in s.players && SectorMove(s, p, account, x, y).Done?
    ensures Inv(SectorMove(s, p, account, x, y).state)
  {
    var pl := s.players[p];
    if !MoveAllowed(s, p, account, x, y) {
      EmitKeeps(s, [Disconnect(pl.session)]);
    } else {
      MoveDefinedIff(s, p, account, x, y);
      var moved := pl.(registered := true, x := x, y := y);
      var u := Moved(s, p, moved);
      assert SectorMove(s, p, account, x, y) == Done(Emit(u, [Send(pl.session, ResSectorMove(account, x, y))])) by {
        if pl.registered {
          assert p in Where(s);
        }
      }
      hide SectorMove;
      MovePlaced(s, p, moved);
      MovedKeepsRest(s, p, moved, u);
      EmitKeeps(u, [Send(pl.session, ResSectorMove(account, x, y))]);
    }
  }

  function Left(s: State, p: Slot): seq<seq<Slot>>
    requires p in s.players
  {
    var pl := s.players[p];
    if pl.registered && InRange(s, Home(pl)) then s.cells[Home(pl) := Without(s.cells[Home(pl)], p)] else s.cells
  }

  function Moved(s: State, p: Slot, moved: Player): State
    requires p in s.players && InRange(s, Home(moved))
  {
    var cells := Left(s, p);
    s.(players := s.players[p := moved], cells := cells[Home(moved) := cells[Home(moved)] + [p]])
  }

  lemma MovePlaced(s: State, p: Slot, moved: Player)
    requires Placed(s) && p in s.roster && p in s.players && moved.registered && 0 <= Home(moved) < CELLS
    ensures Placed(Moved(s, p, moved))
  {
    hide Agree, Without, Home;
    LeftAgrees(s, p);
    AgreeRegister(Left(s, p), Where(s) - {p}, p, Home(moved));
    WhereMoved(s, p, moved);
  }

  lemma LeftAgrees(s: State, p: Slot)
    requires Placed(s) && p in s.roster && p in s.players
    ensures Agree(Left(s, p), Where(s) - {p}) && |Left(s, p)| == |s.cells| == CELLS
  {
    hide Without, Home;
    if s.players[p].registered {
      assert p in Where(s);
      AgreeRemove(s.cells, Where(s), p);
    } else {
      assert Where(s) - {p} == Where(s);
    }
  }

  lemma WhereMoved(s: State, p: Slot, moved: Player)
    requires p in s.roster && p in s.players && moved.registered && InRange(s, Home(moved))
    requires InRange(s.(cells := Left(s, p)), Home(moved))
    ensures Where(Moved(s, p, moved)) == (Where(s) - {p})[p := Home(moved)]
  {
    hide Agree, Without, Home, Left;
  }

  lemma MovedKeepsRest(s: State, p: Slot, moved: Player, u: State)
    requires Roster(s) && Logins(s) && Monitors(s) && p in s.roster && p in s.players
    requires moved == s.players[p].(registered := true, x := moved.x, y := moved.y)
    requires IsWord(moved.x) && IsWord(moved.y) && !IsNonValidSector(moved.x, moved.y)
    requires u == s.(players := s.players[p := moved], cells := u.cells)
    ensures Roster(u) && Logins(u) && Monitors(u)
  {
    SameMonitors(s, u);
    forall a | a in u.logins ensures Entered(u, a) {
      assert Entered(s, a);
    }
    forall q | q in u.roster ensures q in u.players && CurrentOrKicked(u, q) {
      assert CurrentOrKicked(s, q);
    }
  }

  lemma RecvKeeps(c: Codes, s: State, p: Slot, packet: seq<byte>)
    requires Inv(s) && p in s.roster && p in s.players && OnRecv(c, s, p, packet).Done?
    ensures Inv(OnRecv(c, s, p, packet).state)
  {
    var pl := s.players[p];
    match ParseRequest(c, packet)
    case Move(account, x, y) => MoveKeeps(s, p, account, x, y);
    case Message(account, message) =>
      if Accepted(pl, account) {
        var qs := Recipients(s.cells, Around(pl)).value;
        EmitKeeps(s, EnqueueAll(s.players, qs, ResMessage(account, pl.id, pl.nick, message)));
      } else {
        EmitKeeps(s, [Disconnect(pl.session)]);
      }
    case Heartbeat =>
    case SectorInfo => EmitKeeps(s, [Sizes(pl.session, SizesOf(s.cells).value)]);
    case Reject => EmitKeeps(s, [Disconnect(pl.session)]);
  }

  lemma {:induction false} RunsKeepInv(c: Codes, s: State, es: seq<Event>)
    requires Inv(s)
    ensures Exec(c, s, es).Some? && Exec(c, s, es).value.Done? ==> Inv(Exec(c, s, es).value.state)
    decreases |es|
  {
    if es != [] && Enabled(s, es[0]) {
      hide Inv, Step, Enabled;
      match Step(c, s, es[0])
      case Fault =>
      case Done(t) =>
        StepKeeps(c, s, es[0]);
        RunsKeepInv(c, t, es[1..]);
    }
  }

  lemma StepKeeps(c: Codes, s: State, e: Event)
    requires Inv(s) && Enabled(s, e) && Step(c, s, e).Done?
    ensures Inv(Step(c, s, e).state)
  {
    hide Inv, OnEnter, OnLeave, OnRecv;
    match e
    case Join(p, pl) => EnterKeeps(s, p, pl);
    case Leave(p) =>
      LeaveDefinedIff(s, p);
      LeaveKeeps(s, p);
    case Receive(p, packet) => RecvKeeps(c, s, p, packet);
  }

  /** Over any run of joins, leaves and packets, the invariant holds. */
  lemma EveryRun(c: Codes, es: seq<Event>, s: State)
    requires Reached(c, es, s)
    ensures Inv(s)
  {
    assert Where(Chat.INITIAL) == map[];
    RunsKeepInv(c, Chat.INITIAL, es);
  }
}
