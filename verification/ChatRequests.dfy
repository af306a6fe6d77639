/**
 What the chat content does with each packet, in every reachable state and in terms
 of the packet's bytes: when it refuses, when it stops, and what it changes and sends.
 */
module ChatRequests {
  import opened Chat
  import opened ChatProofs
  import opened ChatResults
  import opened ChatRuns
  import opened Lists
  import opened Packets
  import opened Sectors
  import opened Wrappers

  // --- Packets by their bytes ------------------------------------------------------

  /** A word is two bytes, the low one first. */
  lemma WordLayout(v: int)
    requires IsWord(v)
    ensures WordBytes(v) == [v % 0x100, v / 0x100]
  {
    assert Bytes(v / 0x100, 1) == [v / 0x100 % 0x100] + Bytes(v / 0x100 / 0x100, 0);
  }

  lemma {:induction false} NumberStep(bs: seq<byte>)
    requires bs != []
    ensures Number(bs) == bs[0] + 0x100 * Number(bs[1..])
  {
  }

  /** An account is eight bytes, the lowest first, in two's complement. */
  lemma AccountLayout(v: int)
    requires IsInt64(v)
    ensures var b := Int64Bytes(v);
            b[0] as int + 0x100 * (b[1] as int) + 0x1_0000 * (b[2] as int) + 0x100_0000 * (b[3] as int)
            + 0x1_0000_0000 * (b[4] as int) + 0x100_0000_0000 * (b[5] as int)
            + 0x1_0000_0000_0000 * (b[6] as int) + 0x100_0000_0000_0000 * (b[7] as int)
            == if v < 0 then v + 18446744073709551616 else v
  {
    var b := Int64Bytes(v);
    Widths();
    NumberOfBytes(Unsigned(v), 8);
    hide Bytes, Number, Pow;
    NumberStep(b);
    NumberStep(b[1..]);
    NumberStep(b[2..]);
    NumberStep(b[3..]);
    NumberStep(b[4..]);
    NumberStep(b[5..]);
    NumberStep(b[6..]);
    NumberStep(b[7..]);
    assert b[1..][1..] == b[2..] && b[2..][1..] == b[3..] && b[3..][1..] == b[4..] && b[4..][1..] == b[5..];
    assert b[5..][1..] == b[6..] && b[6..][1..] == b[7..] && b[7..][1..] == [];
    assert Number([]) == 0 by { NumberOfNothing(); }
  }

  lemma NumberOfNothing()
    ensures Number([]) == 0
  {
  }

  /** The fields of each reply in the order they are sent; names take forty bytes each. */
  lemma ReplyLayouts(c: Codes, p: Packet)
    requires Proper(c) && Packets.Fits(p)
    ensures match p
            case ResLogin(status, account) =>
              Packets.Encode(c, p) == WordBytes(c.resLogin) + [status] + Int64Bytes(account)
            case ResSectorMove(account, x, y) =>
              Packets.Encode(c, p) == WordBytes(c.resMove) + Int64Bytes(account) + WordBytes(x) + WordBytes(y)
            case ResMessage(account, id, nick, message) =>
              && |id| == 40 && |nick| == 40
              && Packets.Encode(c, p) ==
                 WordBytes(c.resMessage) + Int64Bytes(account) + id + nick + WordBytes(|message|) + message
  {
    hide WordBytes, Int64Bytes;
    match p
    case ResLogin(_, account) => assert Int64Bytes(account) + [] == Int64Bytes(account);
    case ResSectorMove(_, _, y) => assert WordBytes(y) + [] == WordBytes(y);
    case ResMessage(account, id, nick, message) =>
      assert message + [] == message;
      var w, a, n := WordBytes(c.resMessage), Int64Bytes(account), WordBytes(|message|);
      assert w + a + id + nick + n + message == w + (a + (id + (nick + (n + message))));
  }

  // The type code of a packet that is long enough to have one.
  function CodeIn(bs: seq<byte>): int {
    if |bs| < 2 then -1 else bs[0] as int + 0x100 * (bs[1] as int)
  }

  lemma FirstWord(bs: seq<byte>)
    ensures TakeWord(bs) == if |bs| < 2 then None else Some((CodeIn(bs), bs[2..]))
  {
    if |bs| >= 2 {
      NumberStep(bs[..2]);
      assert bs[..2][1..] == [bs[1]];
      NumberStep([bs[1]]);
      assert [bs[1]][1..] == [];
    }
  }

  // The request codes of the protocol are words and differ.
  ghost predicate DistinctRequests(c: Codes) {
    && AsksSizes(c) && IsWord(c.reqHeartbeat) && IsWord(c.monitorLogin)
    && c.reqHeartbeat !in {c.reqMove, c.reqMessage, c.monitorLogin} && c.monitorLogin !in {c.reqMove, c.reqMessage}
  }

  ghost predicate IsMove(c: Codes, bs: seq<byte>)
    requires Proper(c)
  {
    exists account, x, y ::
      IsInt64(account) && IsWord(x) && IsWord(y) && bs == MoveBytes(c, account, x, y)
  }

  ghost predicate IsMessage(c: Codes, bs: seq<byte>)
    requires Proper(c)
  {
    exists account, message: seq<byte> ::
      IsInt64(account) && |message| < 0x1_0000 && bs == MessageBytes(c, account, message)
  }

  /** A packet is a heartbeat or a size request by its code alone; what is none of the four requests is refused. */
  lemma RequestByCode(c: Codes, bs: seq<byte>)
    requires DistinctRequests(c)
    ensures ParseRequest(c, bs) == Request.Heartbeat <==> CodeIn(bs) == c.reqHeartbeat
    ensures ParseRequest(c, bs) == Request.SectorInfo <==> CodeIn(bs) == c.reqSectorInfo
    ensures ParseRequest(c, bs) == Request.Reject <==>
              !IsMove(c, bs) && !IsMessage(c, bs) && CodeIn(bs) != c.reqHeartbeat && CodeIn(bs) != c.reqSectorInfo
  {
    FirstWord(bs);
    hide TakeWord, DecodeMove, MoveBytes, MessageBytes, CodeIn;
    ByCode(c, bs);
    MoveForms(c, bs);
    MessageForms(c, bs);
  }

  lemma ByCode(c: Codes, bs: seq<byte>)
    requires DistinctRequests(c) && TakeWord(bs) == if |bs| < 2 then None else Some((CodeIn(bs), bs[2..]))
    ensures ParseRequest(c, bs).Heartbeat? <==> CodeIn(bs) == c.reqHeartbeat
    ensures ParseRequest(c, bs).SectorInfo? <==> CodeIn(bs) == c.reqSectorInfo
  {
    hide TakeWord, DecodeMove, TakeInt64, TakeBytes;
  }

  lemma MoveForms(c: Codes, bs: seq<byte>)
    requires Proper(c)
    ensures IsMove(c, bs) <==> ParseRequest(c, bs).Move?
  {
    hide ParseRequest;
    if ParseRequest(c, bs).Move? {
      var r := ParseRequest(c, bs);
      MoveRequestExact(c, bs, r.account, r.x, r.y);
    }
    forall account, x, y | IsInt64(account) && IsWord(x) && IsWord(y) && bs == MoveBytes(c, account, x, y)
      ensures ParseRequest(c, bs).Move?
    {
      MoveParsed(c, account, x, y);
    }
  }

  lemma MessageForms(c: Codes, bs: seq<byte>)
    requires Proper(c)
    ensures IsMessage(c, bs) <==> ParseRequest(c, bs).Message?
  {
    hide ParseRequest;
    if ParseRequest(c, bs).Message? {
      var r := ParseRequest(c, bs);
      MessageRequestExact(c, bs, r.account, r.message);
    }
    forall account, message: seq<byte> |
      IsInt64(account) && |message| < 0x1_0000 && bs == MessageBytes(c, account, message)
      ensures ParseRequest(c, bs).Message?
    {
      MessageParsed(c, account, message);
    }
  }

  // --- Outcomes -----------------------------------------------------------------------

  // The sender is told to go and nothing else happens.
  function Refused(s: State, p: Slot): Outcome
    requires p in s.players
  {
    Done(s.(out := s.out + [Disconnect(s.players[p].session)]))
  }

  /** A move is refused exactly if it names another account or a coordinate above 50. */
  lemma MoveRefusedIff(c: Codes, es: seq<Event>, s: State, p: Slot, account: int, x: int, y: int)
    requires Proper(c) && Reached(c, es, s) && p in s.roster && p in s.players
    requires IsInt64(account) && IsWord(x) && IsWord(y)
    ensures OnRecv(c, s, p, MoveBytes(c, account, x, y)) == Refused(s, p)
            <==> account != s.players[p].account || x > 50 || y > 50
  {
    EveryRun(c, es, s);
    MoveParsed(c, account, x, y);
    hide MoveBytes, ParseRequest;
    MoveSays(s, p, account, x, y);
  }

  lemma MoveSays(s: State, p: Slot, account: int, x: int, y: int)
    requires Inv(s) && p in s.roster && p in s.players && IsWord(x) && IsWord(y)
    ensures account != s.players[p].account || x > 50 || y > 50 ==> SectorMove(s, p, account, x, y) == Refused(s, p)
    ensures !(account != s.players[p].account || x > 50 || y > 50) && SectorMove(s, p, account, x, y).Done? ==>
              var pl := s.players[p];
              var t := SectorMove(s, p, account, x, y).state;
              && t == s.(players := s.players[p := pl.(registered := true, x := x, y := y)],
                         cells := t.cells, out := s.out + [Send(pl.session, ResSectorMove(account, x, y))])
              && SectorMove(s, p, account, x, y) != Refused(s, p)
  {
    hide Agree, Without, Home;
    var a, b := s.out + [Send(s.players[p].session, ResSectorMove(account, x, y))],
                s.out + [Disconnect(s.players[p].session)];
    assert a[|s.out|] != b[|s.out|];
  }

  /** A move that is not refused stops the program exactly if its place lies behind the last of the 2500 lists. */
  lemma MoveFaultIff(c: Codes, es: seq<Event>, s: State, p: Slot, account: int, x: int, y: int)
    requires Proper(c) && Reached(c, es, s) && p in s.roster && p in s.players
    requires IsInt64(account) && IsWord(x) && IsWord(y)
    ensures OnRecv(c, s, p, MoveBytes(c, account, x, y)) == Fault
            <==> account == s.players[p].account && x <= 50 && y <= 50 && 50 * y + x >= 2500
  {
    EveryRun(c, es, s);
    MoveParsed(c, account, x, y);
    MoveDefinedIff(s, p, account, x, y);
    hide MoveBytes, ParseRequest, SectorMove;
  }

  /**
   Any other move is done: the player is recorded there and answered, taken off
   whichever list it was on, and put at the end of the list of its new place.
   */
  lemma MoveDone(c: Codes, es: seq<Event>, s: State, p: Slot, account: int, x: int, y: int, i: int)
    requires Proper(c) && Reached(c, es, s) && p in s.roster && p in s.players && IsInt64(account)
    requires account == s.players[p].account && 0 <= x <= 50 && 0 <= y <= 50 && 50 * y + x < 2500 && 0 <= i < 2500
    ensures OnRecv(c, s, p, MoveBytes(c, account, x, y)).Done?
    ensures var pl := s.players[p]; var t := OnRecv(c, s, p, MoveBytes(c, account, x, y)).state;
            && t == s.(players := s.players[p := pl.(registered := true, x := x, y := y)],
                       cells := t.cells, out := s.out + [Send(pl.session, ResSectorMove(account, x, y))])
            && |s.cells| == |t.cells| == 2500
            && t.cells[i] == Without(s.cells[i], p) + if i == 50 * y + x then [p] else []
  {
    EveryRun(c, es, s);
    MoveParsed(c, account, x, y);
    MoveDefinedIff(s, p, account, x, y);
    MoveSays(s, p, account, x, y);
    MoveCells(s, p, account, x, y, i);
    hide MoveBytes, ParseRequest, SectorMove;
  }

  lemma {:induction false} WithoutAbsent(qs: seq<Slot>, p: Slot)
    requires p !in qs
    ensures Without(qs, p) == qs
  {
    if qs != [] {
      WithoutAbsent(qs[1..], p);
      assert qs == [qs[0]] + qs[1..];
    }
  }

  lemma MoveCells(s: State, p: Slot, account: int, x: int, y: int, i: int)
    requires Inv(s) && p in s.roster && p in s.players && SectorMove(s, p, account, x, y).Done?
    requires account == s.players[p].account && 0 <= x <= 50 && 0 <= y <= 50 && 0 <= i < 2500
    ensures var t := SectorMove(s, p, account, x, y).state;
            && |s.cells| == |t.cells| == 2500
            && t.cells[i] == Without(s.cells[i], p) + if i == 50 * y + x then [p] else []
  {
    var pl := s.players[p];
    Elsewhere(s, p, i);
    hide Without, Agree;
    if !(pl.registered && Home(pl) == i) {
      WithoutAbsent(s.cells[i], p);
    }
    assert Without(s.cells[i], p) + [] == Without(s.cells[i], p);
  }

  lemma Elsewhere(s: State, p: Slot, i: int)
    requires Inv(s) && p in s.roster && p in s.players && 0 <= i < 2500
    ensures |s.cells| == 2500
    ensures s.players[p].registered ==> 0 <= Home(s.players[p]) < 2500
    ensures !(s.players[p].registered && Home(s.players[p]) == i) ==> p !in s.cells[i]
  {
    AgreeOf(s);
    assert p in Where(s) <==> s.players[p].registered;
    assert multiset(s.cells[i])[p] == if p in Where(s) && Where(s)[p] == i then 1 else 0;
    assert p in s.cells[i] <==> multiset(s.cells[i])[p] > 0;
  }

  /** A chat request is refused exactly if it names another account. */
  lemma ChatRefusedIff(c: Codes, es: seq<Event>, s: State, p: Slot, account: int, message: seq<byte>)
    requires Proper(c) && Reached(c, es, s) && p in s.roster && p in s.players
    requires IsInt64(account) && |message| < 0x1_0000
    ensures OnRecv(c, s, p, MessageBytes(c, account, message)) == Refused(s, p) <==> account != s.players[p].account
  {
    EveryRun(c, es, s);
    MessageParsed(c, account, message);
    hide MessageBytes, ParseRequest;
    ChatSays(s, p, account, message);
  }

  lemma {:induction false} EnqueuesSends(players: map<Slot, Player>, qs: seq<Slot>, packet: Packet)
    ensures forall e :: e in EnqueueAll(players, qs, packet) ==>
              exists q :: q in qs && q in players && e == Send(players[q].session, packet)
  {
    if qs != [] {
      EnqueuesSends(players, qs[1..], packet);
      assert qs == [qs[0]] + qs[1..];
    }
  }

  lemma ChatSays(s: State, p: Slot, account: int, message: seq<byte>)
    requires Inv(s) && p in s.roster && p in s.players
    ensures account != s.players[p].account ==> ChatMessage(s, p, account, message) == Refused(s, p)
    ensures account == s.players[p].account && ChatMessage(s, p, account, message).Done? ==>
              var pl := s.players[p];
              var t := ChatMessage(s, p, account, message).state;
              && Recipients(s.cells, Around(pl)).Some?
              && t == s.(out := s.out + EnqueueAll(s.players, Recipients(s.cells, Around(pl)).value,
                                                   ResMessage(account, pl.id, pl.nick, message)))
              && ChatMessage(s, p, account, message) != Refused(s, p)
  {
    hide Agree, Around, Recipients, EnqueueAll;
    var pl := s.players[p];
    if account == pl.account && ChatMessage(s, p, account, message).Done? {
      var qs, packet := Recipients(s.cells, Around(pl)).value, ResMessage(account, pl.id, pl.nick, message);
      var sent := EnqueueAll(s.players, qs, packet);
      EnqueuesSends(s.players, qs, packet);
      var b := s.out + [Disconnect(pl.session)];
      assert b[|s.out|] == Disconnect(pl.session);
      assert sent != [] ==> (s.out + sent)[|s.out|] == sent[0] && sent[0] in sent;
    }
  }

  /** A chat request that is not refused stops the program exactly if the sender's recorded place has no list. */
  lemma ChatFaultIff(c: Codes, es: seq<Event>, s: State, p: Slot, account: int, message: seq<byte>)
    requires Proper(c) && Reached(c, es, s) && p in s.roster && p in s.players
    requires IsInt64(account) && |message| < 0x1_0000
    ensures OnRecv(c, s, p, MessageBytes(c, account, message)) == Fault
            <==> account == s.players[p].account && 50 * s.players[p].y + s.players[p].x >= 2500
  {
    EveryRun(c, es, s);
    MessageParsed(c, account, message);
    MessageDefinedIff(s, p, account, message);
    hide MessageBytes, ParseRequest, ChatMessage, Agree;
  }

  /**
   Any other chat request sends the message, under the sender's names, once to each
   player in earshot, to nobody else, and changes nothing.
   */
  lemma ChatDone(c: Codes, es: seq<Event>, s: State, p: Slot, account: int, message: seq<byte>, q: Slot)
    requires Proper(c) && Reached(c, es, s) && p in s.roster && p in s.players && q in s.roster && q in s.players
    requires IsInt64(account) && |message| < 0x1_0000
    requires account == s.players[p].account && 50 * s.players[p].y + s.players[p].x < 2500
    ensures OnRecv(c, s, p, MessageBytes(c, account, message)).Done?
    ensures var pl := s.players[p]; var t := OnRecv(c, s, p, MessageBytes(c, account, message)).state;
            var packet := ResMessage(account, pl.id, pl.nick, message);
            && t == s.(out := t.out) && s.out <= t.out
            && multiset(t.out[|s.out|..])[Send(s.players[q].session, packet)] == (if InEarshot(s, p, q) then 1 else 0)
            && forall e :: e in t.out[|s.out|..] ==>
                 exists r :: r in s.roster && r in s.players && e == Send(s.players[r].session, packet)
  {
    EveryRun(c, es, s);
    MessageParsed(c, account, message);
    ChatFaultIff(c, es, s, p, account, message);
    HomeOf(s, p);
    MessageReaches(c, es, s, p, account, message, q);
    ChatSays(s, p, account, message);
    hide MessageBytes, ParseRequest, ChatMessage, Reached;
    var pl := s.players[p];
    var qs := Recipients(s.cells, Around(pl)).value;
    EnqueuesSends(s.players, qs, ResMessage(account, pl.id, pl.nick, message));
    forall r | r in qs ensures r in s.roster {
      OnlyRoster(s, p, r);
    }
  }

  // A message from a place is meant for list i: its own, or that of a cell next to it.
  predicate MeantFor(at: Cell, i: int) {
    i == 50 * at.y + at.x || Near(Cell(i % 50, i / 50), at)
  }

  // The players of the first n lists that a message from a place is meant for, list by list.
  function Heard(cells: seq<seq<Slot>>, at: Cell, n: nat): seq<Slot>
    requires n <= |cells|
  {
    if n == 0 then []
    else
      Heard(cells, at, n - 1) + if MeantFor(at, n - 1) then cells[n - 1] else []
  }

  lemma {:induction false} RecipientsOfTwo(cells: seq<seq<Slot>>, a: seq<Cell>, b: seq<Cell>)
    requires Recipients(cells, a).Some? && Recipients(cells, b).Some?
    ensures Recipients(cells, a + b) == Some(Recipients(cells, a).value + Recipients(cells, b).value)
  {
    if a == [] {
      assert a + b == b;
      assert [] + Recipients(cells, b).value == Recipients(cells, b).value;
    } else {
      RecipientsOfTwo(cells, a[1..], b);
      assert (a + b)[1..] == a[1..] + b;
      Assoc(cells[Index(a[0])], Recipients(cells, a[1..]).value, Recipients(cells, b).value);
    }
  }

  // The visited lists below n are the first k places of the visit.
  ghost predicate CutAt(cs: seq<Cell>, k: nat, n: nat) {
    && k <= |cs|
    && (forall i :: 0 <= i < k ==> Index(cs[i]) < n)
    && forall i :: k <= i < |cs| ==> Index(cs[i]) >= n
  }

  ghost predicate Meant(cs: seq<Cell>, at: Cell, n: nat) {
    forall i :: 0 <= i < n ==> (Visits(cs, i) <==> MeantFor(at, i))
  }

  lemma {:induction false} HeardIsVisited(cells: seq<seq<Slot>>, cs: seq<Cell>, at: Cell, n: nat) returns (k: nat)
    requires n <= |cells| && Increasing(cs) && (forall c :: c in cs ==> 0 <= Index(c) < |cells|) && Meant(cs, at, n)
    ensures CutAt(cs, k, n)
    ensures Recipients(cells, cs[..k]) == Some(Heard(cells, at, n))
  {
    hide Index, MeantFor;
    if n == 0 {
      k := 0;
      NothingVisited(cells, cs);
    } else {
      k := HeardIsVisited(cells, cs, at, n - 1);
      assert Visits(cs, n - 1) <==> MeantFor(at, n - 1);
      hide Meant, Recipients, CutAt, Increasing, Visits, Heard;
      HeardNext(cells, at, n - 1);
      if k < |cs| && Index(cs[k]) == n - 1 {
        Taken(cs, k, n - 1);
        NextRecipients(cells, cs, k);
        k := k + 1;
      } else {
        NotVisited(cs, k, n - 1);
      }
    }
  }

  lemma HeardNext(cells: seq<seq<Slot>>, at: Cell, n: nat)
    requires n < |cells|
    ensures Heard(cells, at, n + 1) == if MeantFor(at, n) then Heard(cells, at, n) + cells[n] else Heard(cells, at, n)
  {
    hide MeantFor;
    assert Heard(cells, at, n) + [] == Heard(cells, at, n);
  }

  lemma NothingVisited(cells: seq<seq<Slot>>, cs: seq<Cell>)
    requires forall c :: c in cs ==> 0 <= Index(c) < |cells|
    ensures CutAt(cs, 0, 0) && Recipients(cells, cs[..0]) == Some([])
  {
    hide Index;
    assert forall i :: 0 <= i < |cs| ==> cs[i] in cs;
  }

  lemma NextRecipients(cells: seq<seq<Slot>>, cs: seq<Cell>, k: nat)
    requires k < |cs| && 0 <= Index(cs[k]) < |cells| && Recipients(cells, cs[..k]).Some?
    ensures Recipients(cells, cs[..k + 1]) == Some(Recipients(cells, cs[..k]).value + cells[Index(cs[k])])
  {
    hide Index;
    assert cs[..k + 1] == cs[..k] + [cs[k]] && [cs[k]][1..] == [];
    assert cells[Index(cs[k])] + [] == cells[Index(cs[k])];
    assert Recipients(cells, []) == Some([]);
    assert Recipients(cells, [cs[k]]) == Some(cells[Index(cs[k])]);
    RecipientsOfTwo(cells, cs[..k], [cs[k]]);
  }

  lemma Taken(cs: seq<Cell>, k: nat, n: nat)
    requires CutAt(cs, k, n) && Increasing(cs) && k < |cs| && Index(cs[k]) == n
    ensures Visits(cs, n) && CutAt(cs, k + 1, n + 1)
  {
    hide Index;
    assert cs[k] in cs;
  }

  lemma NotVisited(cs: seq<Cell>, k: nat, n: nat)
    requires CutAt(cs, k, n) && Increasing(cs) && (k < |cs| ==> Index(cs[k]) != n)
    ensures !Visits(cs, n) && CutAt(cs, k, n + 1)
  {
    hide Index;
    forall i | 0 <= i < |cs| ensures Index(cs[i]) != n {
      assert i > k ==> Index(cs[k]) < Index(cs[i]);
    }
  }

  lemma BeyondCut(cs: seq<Cell>, k: nat, n: nat)
    requires CutAt(cs, k, n) && k < |cs|
    ensures cs[k] in cs && Index(cs[k]) >= n
  {
  }

  lemma AroundIsMeant(pl: Player)
    requires IsWord(pl.x) && IsWord(pl.y) && 50 * pl.y + pl.x < 2500
    ensures Meant(Around(pl), Cell(pl.x, pl.y), 2500)
  {
    var at := Cell(pl.x, pl.y);
    AroundOf(pl);
    hide Around, Visited, Visits, Near;
    forall i | 0 <= i < 2500 ensures Visits(Around(pl), i) <==> MeantFor(at, i) {
      ListOfCell(i);
      ReachesExactly(at, Cell(i % 50, i / 50));
      SameSeat(Cell(i % 50, i / 50), at);
    }
  }

  lemma ListOfCell(i: int)
    requires 0 <= i < 2500
    ensures var c := Cell(i % 50, i / 50); HasList(c) && Index(c) == i && Seat(c) == c
  {
  }

  lemma {:induction false} EnqueuedInOrder(players: map<Slot, Player>, qs: seq<Slot>, packet: Packet)
    requires forall q :: q in qs ==> q in players
    ensures |EnqueueAll(players, qs, packet)| == |qs|
    ensures forall i :: 0 <= i < |qs| ==> EnqueueAll(players, qs, packet)[i] == Send(players[qs[i]].session, packet)
  {
    if qs != [] {
      assert qs == [qs[0]] + qs[1..];
      EnqueuedInOrder(players, qs[1..], packet);
      hide EnqueueAll;
      EnqueueCons(players, qs, packet);
    }
  }

  lemma EnqueueCons(players: map<Slot, Player>, qs: seq<Slot>, packet: Packet)
    requires qs != [] && qs[0] in players
    ensures EnqueueAll(players, qs, packet) ==
              [Send(players[qs[0]].session, packet)] + EnqueueAll(players, qs[1..], packet)
  {
  }

  /**
   The order of sending is that of a scan of all 2500 lists for the sender's own and
   those of the cells next to it, each list from its first player to its last.
   */
  lemma ChatInOrder(c: Codes, es: seq<Event>, s: State, p: Slot, account: int, message: seq<byte>)
    requires Proper(c) && Reached(c, es, s) && p in s.roster && p in s.players
    requires IsInt64(account) && |message| < 0x1_0000
    requires account == s.players[p].account && 50 * s.players[p].y + s.players[p].x < 2500
    ensures |s.cells| == 2500 && OnRecv(c, s, p, MessageBytes(c, account, message)).Done?
    ensures var pl := s.players[p]; var qs := Heard(s.cells, Cell(pl.x, pl.y), 2500);
            var sent := OnRecv(c, s, p, MessageBytes(c, account, message)).state.out[|s.out|..];
            && |sent| == |qs|
            && forall i :: 0 <= i < |qs| ==>
                 && qs[i] in s.players
                 && sent[i] == Send(s.players[qs[i]].session, ResMessage(account, pl.id, pl.nick, message))
  {
    var pl := s.players[p];
    EveryRun(c, es, s);
    hide MessageBytes, ParseRequest, ChatMessage, Heard, Recipients, Around, EnqueueAll;
    HomeOf(s, p);
    ChatFaultIff(c, es, s, p, account, message);
    MessageParsed(c, account, message);
    ChatSays(s, p, account, message);
    HeardIsAll(s, p);
    hide Inv, Reached;
    var qs := Recipients(s.cells, Around(pl)).value;
    forall q | q in qs ensures q in s.players {
      OnlyRoster(s, p, q);
      InPlayers(s, q);
    }
    EnqueuedInOrder(s.players, qs, ResMessage(account, pl.id, pl.nick, message));
  }

  lemma HeardIsAll(s: State, p: Slot)
    requires Inv(s) && p in s.roster && p in s.players && 50 * s.players[p].y + s.players[p].x < 2500
    ensures |s.cells| == 2500
    ensures Recipients(s.cells, Around(s.players[p])) ==
              Some(Heard(s.cells, Cell(s.players[p].x, s.players[p].y), 2500))
  {
    var pl := s.players[p];
    var cs := Around(pl);
    HomeOf(s, p);
    AroundOf(pl);
    AroundIsMeant(pl);
    AgreeOf(s);
    hide Around, Recipients, Heard, Inv;
    var k := HeardIsVisited(s.cells, cs, Cell(pl.x, pl.y), 2500);
    assert forall c :: c in cs ==> Index(c) < 2500;
    if k < |cs| {
      BeyondCut(cs, k, 2500);
      assert false;
    }
    assert cs[..k] == cs;
  }

  lemma HomeOf(s: State, p: Slot)
    requires Inv(s) && p in s.roster && p in s.players && 50 * s.players[p].y + s.players[p].x < 2500
    ensures 0 <= Home(s.players[p]) < CELLS && s.players[p].login
  {
  }

  lemma InPlayers(s: State, q: Slot)
    requires Inv(s) && q in s.roster
    ensures q in s.players
  {
  }

  lemma OnlyRoster(s: State, p: Slot, r: Slot)
    requires Inv(s) && p in s.roster && p in s.players && 0 <= Home(s.players[p]) < CELLS
    requires Recipients(s.cells, Around(s.players[p])).Some?
    requires r in Recipients(s.cells, Around(s.players[p])).value
    ensures r in s.roster
  {
    AroundOf(s.players[p]);
    RecipientsCount(s.cells, Where(s), Around(s.players[p]), r);
    hide Around, Recipients, Agree;
  }

  /** In any state, who is not logged in is refused either request. */
  lemma StrangersRefused(c: Codes, s: State, p: Slot, bs: seq<byte>)
    requires Proper(c) && p in s.players && !s.players[p].login && (IsMove(c, bs) || IsMessage(c, bs))
    ensures OnRecv(c, s, p, bs) == Refused(s, p)
  {
    MoveForms(c, bs);
    MessageForms(c, bs);
    hide ParseRequest;
  }

  /** In any state, who is not logged in leaves the roster and nothing else: it was not counted and is on no list. */
  lemma StrangersLeave(s: State, p: Slot)
    requires p in s.players && !s.players[p].login
    ensures OnLeave(s, p).Done?
    ensures var t := OnLeave(s, p).state;
            && t == s.(roster := Without(s.roster, p), monitoring := t.monitoring)
            && t.monitoring == if s.players[p].monitor && s.monitoring == s.players[p].session
                               then 18446744073709551615 else s.monitoring
  {
    hide Without;
  }

  /** A heartbeat does nothing, whatever follows its code. */
  lemma HeartbeatDone(c: Codes, s: State, p: Slot, bs: seq<byte>)
    requires DistinctRequests(c) && p in s.players && CodeIn(bs) == c.reqHeartbeat
    ensures OnRecv(c, s, p, bs) == Done(s)
  {
    RequestByCode(c, bs);
    hide ParseRequest, CodeIn;
  }

  /**
   A size request is answered to its sender alone, one byte for each of the 2500 lists,
   and stops the program exactly if one of them does not fit seven bits modulo 256.
   */
  lemma SizesDone(c: Codes, es: seq<Event>, s: State, p: Slot, bs: seq<byte>)
    requires DistinctRequests(c) && Reached(c, es, s) && p in s.roster && p in s.players
    requires CodeIn(bs) == c.reqSectorInfo
    ensures |s.cells| == 2500
    ensures OnRecv(c, s, p, bs) == Fault <==> exists i :: 0 <= i < 2500 && |s.cells[i]| % 256 >= 128
    ensures OnRecv(c, s, p, bs).Done? ==>
              exists sizes ::
                && OnRecv(c, s, p, bs) == Done(s.(out := s.out + [Sizes(s.players[p].session, sizes)]))
                && |sizes| == 2500 && forall i :: 0 <= i < 2500 ==> sizes[i] == |s.cells[i]| % 256
  {
    EveryRun(c, es, s);
    RequestByCode(c, bs);
    SizesExact(s.cells);
    hide ParseRequest, CodeIn, SizesOf, Reached;
  }

  /**
   Whatever is none of the four requests is refused: too short, with bytes missing or
   left over, or of another code.
   */
  lemma OthersRefused(c: Codes, s: State, p: Slot, bs: seq<byte>)
    requires DistinctRequests(c) && p in s.players
    requires !IsMove(c, bs) && !IsMessage(c, bs) && CodeIn(bs) != c.reqHeartbeat && CodeIn(bs) != c.reqSectorInfo
    ensures OnRecv(c, s, p, bs) == Refused(s, p)
  {
    RequestByCode(c, bs);
    hide ParseRequest, CodeIn;
  }

  // --- Joining and leaving ---------------------------------------------------------------

  /**
   Who is told what when a player joins: the monitoring client it replaces and the
   player its account was logged in from are told to go, its own session leaves the
   login timeout, and unless it is a monitoring client it is told that it is logged in.
   */
  lemma JoinSays(c: Codes, es: seq<Event>, s: State, p: Slot, pl: Player)
    requires Reached(c, es, s) && Enabled(s, Join(p, pl))
    ensures pl.account in s.logins ==> s.logins[pl.account] in s.roster && s.logins[pl.account] in s.players
    ensures Step(c, s, Join(p, pl)).Done?
    ensures var t := Step(c, s, Join(p, pl)).state;
            && t.roster == s.roster + [p] && t.players == s.players[p := pl] && t.playerNum == s.playerNum + 1
            && t.cells == s.cells
            && t.out == s.out
               + (if pl.monitor && s.monitoring != 18446744073709551615 then [Disconnect(s.monitoring)] else [])
               + [SetLogin(pl.session)]
               + (if !pl.monitor && pl.account in s.logins
                  then [Disconnect(s.players[s.logins[pl.account]].session)] else [])
               + (if !pl.monitor then [Send(pl.session, ResLogin(1, pl.account))] else [])
  {
    EveryRun(c, es, s);
    EnterEffects(s, p, pl);
    if pl.account in s.logins {
      assert Entered(s, pl.account);
    }
    hide Inv;
  }

  /** Leaving tells nobody anything. */
  lemma LeaveSaysNothing(c: Codes, es: seq<Event>, s: State, p: Slot)
    requires Reached(c, es, s) && Enabled(s, Leave(p)) && Step(c, s, Leave(p)).Done?
    ensures var t := Step(c, s, Leave(p)).state;
            && t.out == s.out && t.players == s.players && t.playerNum == s.playerNum - 1
            && t.roster == Without(s.roster, p)
            && t.monitoring == if s.players[p].monitor && s.monitoring == s.players[p].session
                               then 18446744073709551615 else s.monitoring
  {
    EveryRun(c, es, s);
    LeaveDefinedIff(s, p);
    hide Inv, Without, Home;
  }
}
