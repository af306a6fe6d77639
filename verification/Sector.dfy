/**
 The sector grid of the chat server: which cells a message from a place visits,
 and where in memory a sector's player list lies.
 */
module Sectors {
  const NUM_OF_SECTOR_VERTICAL: int := 50
  const NUM_OF_SECTOR_HORIZONTAL: int := 50
  const CELLS: int := NUM_OF_SECTOR_VERTICAL * NUM_OF_SECTOR_HORIZONTAL

  datatype Cell = Cell(x: int, y: int)

  // Signed and unsigned 16-bit readings of a number.
  function Short(v: int): (r: int)
    ensures -0x8000 <= r < 0x8000
  {
    (v + 0x8000) % 0x1_0000 - 0x8000
  }

  function Word(v: int): (r: int)
    ensures 0 <= r < 0x1_0000
  {
    v % 0x1_0000
  }

  predicate IsShort(v: int) {
    -0x8000 <= v < 0x8000
  }

  predicate IsNonValidSector(x: int, y: int) {
    !(0 <= x <= NUM_OF_SECTOR_VERTICAL && 0 <= y <= NUM_OF_SECTOR_HORIZONTAL)
  }

  predicate InGrid(c: Cell) {
    0 <= c.x < NUM_OF_SECTOR_HORIZONTAL && 0 <= c.y < NUM_OF_SECTOR_VERTICAL
  }

  // listArr[y][x] within the one block the rows are laid out in.
  function Index(c: Cell): int {
    c.y * NUM_OF_SECTOR_VERTICAL + c.x
  }

  predicate Near(a: Cell, b: Cell) {
    -1 <= a.x - b.x <= 1 && -1 <= a.y - b.y <= 1
  }

  // The eight directions, lane by lane.
  const DIR_X: seq<int> := [-1, 0, 1, -1, 1, -1, 0, 1]
  const DIR_Y: seq<int> := [-1, -1, -1, 0, 0, 1, 1, 1]

  // One lane: the neighbour in that direction, in 16-bit arithmetic.
  function Lane(x: int, y: int, i: nat): Cell
    requires i < 8
  {
    Cell(Short(x + DIR_X[i]), Short(y + DIR_Y[i]))
  }

  // The neighbours of lanes lo to hi that lie in the grid.
  function Lanes(x: int, y: int, lo: nat, hi: nat): (cs: seq<Cell>)
    requires lo <= hi <= 8
    ensures |cs| <= hi - lo
    decreases hi - lo
  {
    if lo == hi then []
    else Lanes(x, y, lo, hi - 1) + if InGrid(Lane(x, y, hi - 1)) then [Lane(x, y, hi - 1)] else []
  }

  // What GetSectorAround writes: the place itself comes in the middle, unchecked.
  function Visited(x: int, y: int): (cs: seq<Cell>)
    ensures 1 <= |cs| <= 9
  {
    Lanes(x, y, 0, 4) + [Cell(Word(x), Word(y))] + Lanes(x, y, 4, 8)
  }

  class SectorAround {
    const around: array<Cell>
    var sectorCount: nat

    constructor ()
      ensures fresh(around) && around.Length == 9 && sectorCount == 0
    {
      around := new Cell[9](_ => Cell(0, 0));
      sectorCount := 0;
    }

    ghost predicate Valid()
      reads this
    {
      around.Length == 9 && sectorCount <= 9
    }

    ghost function Contents(): seq<Cell>
      requires Valid()
      reads this, around
    {
      around[..sectorCount]
    }

    method Put(c: Cell)
      requires Valid() && sectorCount < 9
      modifies this`sectorCount, around
      ensures Valid() && Contents() == old(Contents()) + [c]
    {
      around[sectorCount] := c;
      sectorCount := sectorCount + 1;
    }

    method PutLanes(x: int, y: int, lo: nat, hi: nat)
      requires Valid() && lo <= hi <= 8 && sectorCount + (hi - lo) <= 9
      modifies this`sectorCount, around
      ensures Valid() && Contents() == old(Contents()) + Lanes(x, y, lo, hi)
    {
      for i := lo to hi
        invariant Valid() && sectorCount + (hi - i) <= 9
        invariant Contents() == old(Contents()) + Lanes(x, y, lo, i)
      {
        if InGrid(Lane(x, y, i)) {
          Put(Lane(x, y, i));
        }
      }
    }

    method GetSectorAround(x: int, y: int)
      requires around.Length == 9
      modifies this`sectorCount, around
      ensures Valid() && Contents() == Visited(x, y)
    {
      sectorCount := 0;
      PutLanes(x, y, 0, 4);
      Put(Cell(Word(x), Word(y)));
      PutLanes(x, y, 4, 8);
    }
  }

  // --- The neighbourhood against a scan of the whole grid ------------------

  ghost predicate Increasing(cs: seq<Cell>) {
    forall i, j :: 0 <= i < j < |cs| ==> Index(cs[i]) < Index(cs[j])
  }

  // Every cell in row-major order, keeping those next to the place.
  function Scan(at: Cell, n: nat): seq<Cell> {
    if n == 0 then []
    else
      var c := Cell((n - 1) % NUM_OF_SECTOR_HORIZONTAL, (n - 1) / NUM_OF_SECTOR_HORIZONTAL);
      Scan(at, n - 1) + if Near(c, at) then [c] else []
  }

  lemma {:induction false} ScanFinds(at: Cell, n: nat)
    requires n <= CELLS
    ensures Increasing(Scan(at, n))
    ensures forall c :: c in Scan(at, n) <==> InGrid(c) && Near(c, at) && Index(c) < n
  {
    if n > 0 {
      ScanFinds(at, n - 1);
      var c := Cell((n - 1) % NUM_OF_SECTOR_HORIZONTAL, (n - 1) / NUM_OF_SECTOR_HORIZONTAL);
      assert InGrid(c) && Index(c) == n - 1;
      forall d | InGrid(d) && Index(d) == n - 1 ensures d == c {
        SameIndex(c, d);
      }
      var cs := Scan(at, n - 1);
      forall i | 0 <= i < |cs| ensures Index(cs[i]) < n - 1 {
        assert cs[i] in cs;
      }
    }
  }

  lemma SameIndex(a: Cell, b: Cell)
    requires InGrid(a) && InGrid(b) && Index(a) == Index(b)
    ensures a == b
  {
  }

  // How far a lane's cell lies from the place, in list order.
  function Offset(i: nat): int
    requires i < 8
  {
    DIR_Y[i] * NUM_OF_SECTOR_VERTICAL + DIR_X[i]
  }

  lemma OffsetsIncrease(i: nat, j: nat)
    requires i < j < 8
    ensures Offset(i) < Offset(j)
  {
  }

  lemma OffsetSigns(i: nat)
    requires i < 8
    ensures Offset(i) < 0 <==> i < 4
    ensures Offset(i) != 0
    ensures -1 <= DIR_X[i] <= 1 && -1 <= DIR_Y[i] <= 1 && (DIR_X[i] != 0 || DIR_Y[i] != 0)
  {
  }

  lemma EveryDirection(dx: int, dy: int) returns (i: nat)
    requires -1 <= dx <= 1 && -1 <= dy <= 1 && (dx != 0 || dy != 0)
    ensures i < 8 && DIR_X[i] == dx && DIR_Y[i] == dy
  {
    i := if dy == 0 then (if dx < 0 then 3 else 4) else if dy < 0 then dx + 1 else dx + 6;
  }

  /** The 16-bit wrap-around of a lane never produces a cell of the grid. */
  lemma LaneInGrid(x: int, y: int, i: nat)
    requires IsShort(x) && IsShort(y) && i < 8
    ensures InGrid(Lane(x, y, i)) <==> InGrid(Cell(x + DIR_X[i], y + DIR_Y[i]))
    ensures InGrid(Lane(x, y, i)) ==> Lane(x, y, i) == Cell(x + DIR_X[i], y + DIR_Y[i])
  {
    OffsetSigns(i);
    ShortOf(x + DIR_X[i]);
    ShortOf(y + DIR_Y[i]);
  }

  lemma ShortOf(v: int)
    requires -0x8001 <= v <= 0x8000
    ensures Short(v) == if v < -0x8000 then 0x7FFF else if v == 0x8000 then -0x8000 else v
  {
  }

  /**
   For every place, also off the grid or at the ends of the 16-bit range, the visited
   cells are the place and its neighbours on the grid.
   */
  lemma VisitedExactly(x: int, y: int, c: Cell)
    requires IsShort(x) && IsShort(y)
    ensures c in Visited(x, y) <==> c == Cell(Word(x), Word(y)) || (InGrid(c) && Near(c, Cell(x, y)) && c != Cell(x, y))
  {
    LanesExactly(x, y, 0, 4, c);
    LanesExactly(x, y, 4, 8, c);
    hide Lanes, Lane, Word;
    if InGrid(c) && Near(c, Cell(x, y)) && c != Cell(x, y) {
      var i := EveryDirection(c.x - x, c.y - y);
      LaneInGrid(x, y, i);
    }
    if i: nat :| i < 8 && Lane(x, y, i) == c && InGrid(c) {
      LaneInGrid(x, y, i);
      OffsetSigns(i);
    }
  }

  lemma {:induction false} LanesExactly(x: int, y: int, lo: nat, hi: nat, c: Cell)
    requires lo <= hi <= 8
    ensures c in Lanes(x, y, lo, hi) <==> InGrid(c) && exists i: nat :: lo <= i < hi && Lane(x, y, i) == c
    decreases hi - lo
  {
    hide Lane;
    if lo < hi {
      LanesExactly(x, y, lo, hi - 1, c);
    }
  }

  lemma {:induction false} SameMembersSameList(a: seq<Cell>, b: seq<Cell>)
    requires Increasing(a) && Increasing(b)
    requires forall c :: c in a <==> c in b
    ensures a == b
  {
    assert b != [] ==> b[0] in b;
    if a != [] {
      assert a[0] in b && b != [] && b[0] in a;
      FirstIsLeast(a, b[0]);
      FirstIsLeast(b, a[0]);
      var i :| 0 <= i < |b| && b[i] == a[0];
      assert b[0] == a[0];
      forall c ensures c in a[1..] <==> c in b[1..] {
        TailMembers(a, c);
        TailMembers(b, c);
      }
      SameMembersSameList(a[1..], b[1..]);
    }
  }

  lemma FirstIsLeast(a: seq<Cell>, c: Cell)
    requires Increasing(a) && c in a
    ensures Index(a[0]) <= Index(c)
    ensures Index(a[0]) == Index(c) ==> a[0] == c
  {
  }

  lemma TailMembers(a: seq<Cell>, c: Cell)
    requires Increasing(a) && a != []
    ensures c in a[1..] <==> c in a && c != a[0]
  {
    if c in a[1..] {
      var i :| 0 <= i < |a[1..]| && a[1..][i] == c;
      assert Index(a[0]) < Index(a[i + 1]);
    }
  }

  /**
   From a place on the grid, the visit is exactly the scan of the whole grid for
   cells next to it, in the same order.
   */
  lemma VisitedIsScan(x: int, y: int)
    requires InGrid(Cell(x, y))
    ensures Visited(x, y) == Scan(Cell(x, y), CELLS)
  {
    ScanFinds(Cell(x, y), CELLS);
    VisitedIncreasing(x, y);
    WordOf(x);
    WordOf(y);
    hide *;
    forall c ensures c in Visited(x, y) <==> c in Scan(Cell(x, y), CELLS) {
      VisitedExactly(x, y, c);
    }
    SameMembersSameList(Visited(x, y), Scan(Cell(x, y), CELLS));
  }

  lemma WordOf(v: int)
    requires 0 <= v < 0x1_0000
    ensures Word(v) == v
  {
  }

  lemma LaneIndex(x: int, y: int, c: Cell, lo: nat, hi: nat) returns (i: nat)
    requires IsShort(x) && IsShort(y) && lo <= hi <= 8 && c in Lanes(x, y, lo, hi)
    ensures lo <= i < hi && Index(c) == Index(Cell(x, y)) + Offset(i)
  {
    LanesExactly(x, y, lo, hi, c);
    i :| lo <= i < hi && Lane(x, y, i) == c;
    LaneInGrid(x, y, i);
  }

  lemma {:induction false} LanesIncrease(x: int, y: int, lo: nat, hi: nat)
    requires IsShort(x) && IsShort(y) && lo <= hi <= 8
    ensures Increasing(Lanes(x, y, lo, hi))
    decreases hi - lo
  {
    if lo < hi {
      LanesIncrease(x, y, lo, hi - 1);
      var cs, c := Lanes(x, y, lo, hi - 1), Lane(x, y, hi - 1);
      if InGrid(c) {
        LaneInGrid(x, y, hi - 1);
        assert Index(c) == Index(Cell(x, y)) + Offset(hi - 1);
        hide Lane, Offset, Index;
        forall i | 0 <= i < |cs| ensures Index(cs[i]) < Index(c) {
          var j := LaneIndex(x, y, cs[i], lo, hi - 1);
          OffsetsIncrease(j, hi - 1);
        }
      }
    }
  }

  /** From a place without negative coordinates the lists are visited in the order in which they lie. */
  lemma VisitedIncreasing(x: int, y: int)
    requires 0 <= x < 0x8000 && 0 <= y < 0x8000
    ensures Increasing(Visited(x, y))
  {
    LanesIncrease(x, y, 0, 4);
    LanesIncrease(x, y, 4, 8);
    var a, b, at := Lanes(x, y, 0, 4), Lanes(x, y, 4, 8), Cell(x, y);
    WordOf(x);
    WordOf(y);
    assert Visited(x, y) == a + [at] + b;
    hide *;
    forall i | 0 <= i < |a| ensures Index(a[i]) < Index(at) {
      var j := LaneIndex(x, y, a[i], 0, 4);
      OffsetSigns(j);
    }
    forall i | 0 <= i < |b| ensures Index(at) < Index(b[i]) {
      var j := LaneIndex(x, y, b[i], 4, 8);
      OffsetSigns(j);
    }
    Glue(a, at, b);
  }

  lemma Glue(a: seq<Cell>, at: Cell, b: seq<Cell>)
    requires Increasing(a) && Increasing(b)
    requires forall i :: 0 <= i < |a| ==> Index(a[i]) < Index(at)
    requires forall i :: 0 <= i < |b| ==> Index(at) < Index(b[i])
    ensures Increasing(a + [at] + b)
  {
    hide Index;
  }

  /** No list is visited twice, whatever place the visit starts from. */
  lemma VisitedOnce(x: int, y: int)
    requires IsShort(x) && IsShort(y)
    ensures forall i, j :: 0 <= i < j < |Visited(x, y)| ==> Index(Visited(x, y)[i]) != Index(Visited(x, y)[j])
  {
    if x >= 0 && y >= 0 {
      VisitedIncreasing(x, y);
    } else {
      FarIndex(x, y);
      LanesApart(x, y);
      assert Visited(x, y) == Lanes(x, y, 0, 4) + [Cell(Word(x), Word(y))] + Lanes(x, y, 4, 8);
      hide *;
      GlueFar(Lanes(x, y, 0, 4), Cell(Word(x), Word(y)), Lanes(x, y, 4, 8));
    }
  }

  lemma LanesApart(x: int, y: int)
    requires IsShort(x) && IsShort(y)
    ensures Increasing(Lanes(x, y, 0, 4) + Lanes(x, y, 4, 8))
    ensures forall c :: c in Lanes(x, y, 0, 4) + Lanes(x, y, 4, 8) ==> Index(c) < CELLS
  {
    hide Lanes, Index, Offset, Increasing;
    LanesIncrease(x, y, 0, 4);
    LanesIncrease(x, y, 4, 8);
    forall a, b | a in Lanes(x, y, 0, 4) && b in Lanes(x, y, 4, 8) ensures Index(a) < Index(b) {
      FirstLanesBelow(x, y, a, b);
    }
    GlueTwo(Lanes(x, y, 0, 4), Lanes(x, y, 4, 8));
    forall c | c in Lanes(x, y, 0, 4) + Lanes(x, y, 4, 8) ensures Index(c) < CELLS {
      if c in Lanes(x, y, 0, 4) {
        LaneBelow(x, y, 0, 4, c);
      } else {
        LaneBelow(x, y, 4, 8, c);
      }
    }
  }

  lemma FirstLanesBelow(x: int, y: int, a: Cell, b: Cell)
    requires IsShort(x) && IsShort(y) && a in Lanes(x, y, 0, 4) && b in Lanes(x, y, 4, 8)
    ensures Index(a) < Index(b)
  {
    hide Lanes, Index, Offset;
    var k := LaneIndex(x, y, a, 0, 4);
    var l := LaneIndex(x, y, b, 4, 8);
    OffsetSigns(k);
    OffsetSigns(l);
  }

  lemma GlueTwo(first: seq<Cell>, second: seq<Cell>)
    requires Increasing(first) && Increasing(second) && forall a, b :: a in first && b in second ==> Index(a) < Index(b)
    ensures Increasing(first + second)
  {
    hide Index;
  }

  lemma GlueFar(a: seq<Cell>, far: Cell, b: seq<Cell>)
    requires Increasing(a + b) && (forall c :: c in a + b ==> Index(c) < CELLS) && Index(far) >= CELLS
    ensures var cs := a + [far] + b; forall i, j :: 0 <= i < j < |cs| ==> Index(cs[i]) != Index(cs[j])
  {
    hide Index;
    var cs := a + [far] + b;
    forall i, j | 0 <= i < j < |cs| ensures Index(cs[i]) != Index(cs[j]) {
      assert i != |a| ==> cs[i] == (a + b)[if i < |a| then i else i - 1];
      assert j != |a| ==> cs[j] == (a + b)[if j < |a| then j else j - 1];
    }
  }

  lemma LaneBelow(x: int, y: int, lo: nat, hi: nat, c: Cell)
    requires lo <= hi <= 8 && c in Lanes(x, y, lo, hi)
    ensures 0 <= Index(c) < CELLS
  {
    LanesExactly(x, y, lo, hi, c);
  }

  // A negative coordinate is read as a large word.
  lemma FarIndex(x: int, y: int)
    requires IsShort(x) && IsShort(y) && (x < 0 || y < 0)
    ensures Index(Cell(Word(x), Word(y))) >= CELLS
  {
  }

  /**
   The validity test admits the coordinate 50. A place it admits has its own
   list exactly when both coordinates are below 50.
   */
  lemma OwnListIff(x: int, y: int)
    requires !IsNonValidSector(x, y)
    ensures (0 <= Index(Cell(x, y)) < CELLS
             && forall c :: InGrid(c) && Index(c) == Index(Cell(x, y)) ==> c == Cell(x, y))
            <==> x < 50 && y < 50
    ensures 0 <= Index(Cell(x, y)) < CELLS <==> y < 50 && (x < 50 || y < 49)
  {
    if x < 50 && y < 50 {
      forall c | InGrid(c) && Index(c) == Index(Cell(x, y)) ensures c == Cell(x, y) {
        SameIndex(c, Cell(x, y));
      }
    } else if y < 49 {
      assert InGrid(Cell(0, y + 1)) && Index(Cell(0, y + 1)) == Index(Cell(x, y));
    }
  }

  // --- Reaching a list against being near --------------------------------------

  // Some visited place selects list i.
  ghost predicate Visits(cs: seq<Cell>, i: int) {
    exists c :: c in cs && Index(c) == i
  }

  // A place that selects a list of the block.
  predicate HasList(c: Cell) {
    0 <= c.x && 0 <= c.y && Index(c) < CELLS
  }

  // The grid cell whose list a place selects.
  function Seat(c: Cell): Cell {
    Cell(Index(c) % NUM_OF_SECTOR_VERTICAL, Index(c) / NUM_OF_SECTOR_VERTICAL)
  }

  lemma SeatOf(c: Cell)
    requires HasList(c)
    ensures InGrid(Seat(c)) && Index(Seat(c)) == Index(c)
    ensures Seat(c) == c <==> InGrid(c)
    ensures InGrid(c) <==> c.x < NUM_OF_SECTOR_HORIZONTAL
  {
  }

  lemma SameSeat(a: Cell, b: Cell)
    requires HasList(a) && HasList(b)
    ensures Seat(a) == Seat(b) <==> Index(a) == Index(b)
  {
    SeatOf(a);
    SeatOf(b);
  }

  // A visit from one place reaches the list another selects.
  ghost predicate Reaches(at: Cell, c: Cell) {
    Visits(Visited(at.x, at.y), Index(c))
  }

  /** A visit from a place reaches a list exactly when that is its own list or belongs to a grid cell next to it. */
  lemma ReachesExactly(at: Cell, c: Cell)
    requires HasList(at) && HasList(c)
    ensures Reaches(at, c) <==> Seat(c) == Seat(at) || Near(Seat(c), at)
  {
    var cs := Visited(at.x, at.y);
    SeatOf(c);
    SameSeat(c, at);
    WordOf(at.x);
    WordOf(at.y);
    hide Visited, Word, Seat, InGrid;
    VisitedExactly(at.x, at.y, at);
    VisitedExactly(at.x, at.y, Seat(c));
    if Visits(cs, Index(c)) {
      var d :| d in cs && Index(d) == Index(c);
      VisitedExactly(at.x, at.y, d);
      if d != at {
        SameIndex(d, Seat(c));
      }
    }
    if Seat(c) == Seat(at) {
      assert at in cs && Index(at) == Index(c);
    }
    if Near(Seat(c), at) {
      assert Seat(c) in cs;
    }
  }

  lemma GridHasList(c: Cell)
    requires InGrid(c)
    ensures HasList(c) && Seat(c) == c && Near(c, c)
  {
  }

  lemma OffGridSeat(c: Cell)
    requires HasList(c) && !InGrid(c)
    ensures InGrid(Seat(c)) && !Near(Seat(c), c) && !Near(c, Seat(c))
  {
  }

  /** Seen from a sender: it reaches exactly the lists of the cells next to it if and only if it is on the grid. */
  lemma SenderFaithfulIff(at: Cell)
    requires HasList(at)
    ensures (forall c :: InGrid(c) ==> (Reaches(at, c) <==> Near(c, at))) <==> InGrid(at)
  {
    hide Reaches, Near, Seat, HasList;
    if InGrid(at) {
      GridHasList(at);
      forall c | InGrid(c) ensures Reaches(at, c) <==> Near(c, at) {
        GridHasList(c);
        ReachesExactly(at, c);
      }
    } else {
      OffGridSeat(at);
      var c := Seat(at);
      GridHasList(c);
      ReachesExactly(at, c);
    }
  }

  /**
   Seen from a receiver: its list is reached from the grid exactly by the cells
   next to it if and only if it is on the grid.
   */
  lemma ReceiverFaithfulIff(c: Cell)
    requires HasList(c)
    ensures (forall at :: InGrid(at) ==> (Reaches(at, c) <==> Near(c, at))) <==> InGrid(c)
  {
    hide Reaches, Near, Seat, HasList;
    if InGrid(c) {
      SenderSide(c);
    } else {
      OffGridSeat(c);
      var at := Seat(c);
      GridHasList(at);
      ReachesExactly(at, c);
    }
  }

  lemma SenderSide(c: Cell)
    requires InGrid(c)
    ensures forall at :: InGrid(at) ==> (Reaches(at, c) <==> Near(c, at))
  {
    hide Reaches, Near, Seat, HasList;
    GridHasList(c);
    forall at | InGrid(at) ensures Reaches(at, c) <==> Near(c, at) {
      GridHasList(at);
      ReachesExactly(at, c);
    }
  }

  predicate Apart(y: int, z: int) {
    y - z < -1 || 1 < y - z
  }

  // Reaching and being near come to the same for a sender at a and a receiver at the admitted place b.
  predicate Undistorted(a: Cell, b: Cell) {
    if b.x < 50 then a.x < 50 || b != Seat(a)
    else if a.x <= 1 then Apart(a.y, b.y + 1)
    else if a.x == 49 || a.x == 51 then Apart(a.y, b.y)
    else if a.x == 50 then a.y - b.y != 1 && b.y - a.y != 1
    else Seat(a) != Seat(b)
  }

  lemma EdgeSeat(c: Cell)
    requires HasList(c)
    ensures c.x < 50 ==> Seat(c) == c
    ensures c.x == 50 || c.x == 51 ==> Seat(c) == Cell(c.x - 50, c.y + 1)
    ensures 0 <= Seat(c).x < 50
  {
  }

  /** Exactly when, for one sender and one receiver, reaching the list is being near. */
  lemma PairFaithfulIff(a: Cell, b: Cell)
    requires HasList(a) && HasList(b) && !IsNonValidSector(b.x, b.y)
    ensures (Reaches(a, b) <==> Near(b, a)) <==> Undistorted(a, b)
  {
    ReachesExactly(a, b);
    EdgeSeat(a);
    EdgeSeat(b);
    hide Reaches, Seat, Index;
  }
}
