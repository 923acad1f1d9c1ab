/** Positions on the 20 x 10 grid: rooms and their centres, the rule that
    draws a candidate room, the arrow-key movement rule and the L-shaped
    hallway between two room centres. A position is a pair (x, y); the grid
    is indexed row first, grid[y][x]. */
module Geometry {
  import opened Config

  datatype Option<T> = None | Some(value: T)

  /** The cell lies on the grid. */
  predicate InGrid(cx: int, cy: int) {
    0 <= cx < DungeonWidth && 0 <= cy < DungeonHeight
  }

  /** The cell lies inside the grid's one-cell border, [1, W-2] x [1, H-2]. */
  predicate InInterior(cx: int, cy: int) {
    1 <= cx <= DungeonWidth - 2 && 1 <= cy <= DungeonHeight - 2
  }

  function Abs(n: int): nat { if n < 0 then -n else n }

  /** The two cells share a side. */
  predicate Adjacent(a: (int, int), b: (int, int)) {
    Abs(a.0 - b.0) + Abs(a.1 - b.1) == 1
  }

  datatype Room = Room(x: int, y: int, width: int, height: int) {

    predicate Contains(cx: int, cy: int) {
      x <= cx < x + width && y <= cy < y + height
    }

    /** Every cell of the room is a cell of the grid. */
    predicate InGrid() {
      0 <= x && 0 <= y && 0 <= width && 0 <= height &&
      x + width <= DungeonWidth && y + height <= DungeonHeight
    }

    /** The room is not empty and keeps a one-cell margin from the grid's edge. */
    predicate InsideBorder() {
      1 <= width && 1 <= height && 1 <= x && 1 <= y &&
      x + width <= DungeonWidth - 1 && y + height <= DungeonHeight - 1
    }

    /** Room.center: integer division by 2 of a positive divisor floors, as
        Python's // does, for every sign of the size. */
    function Center(): (c: (int, int))
      ensures 1 <= width && 1 <= height ==> Contains(c.0, c.1)
      ensures InsideBorder() ==> InInterior(c.0, c.1)
    {
      (x + width / 2, y + height / 2)
    }
  }

  lemma InsideBorderCells(r: Room)
    requires r.InsideBorder()
    ensures r.InGrid()
    ensures forall cx, cy :: r.Contains(cx, cy) ==> InInterior(cx, cy)
  {
  }

  predicate SizeInRange(s: int) { RoomMinSize <= s <= RoomMaxSize }

  /** Both largest admissible origin coordinates are positive. */
  predicate SizeFits(w: int, h: int) {
    DungeonWidth - w - 1 > 0 && DungeonHeight - h - 1 > 0
  }

  /** The origin lies in the range the origin draws are taken from. */
  predicate OriginInRange(w: int, h: int, x: int, y: int) {
    1 <= x <= DungeonWidth - w - 1 && 1 <= y <= DungeonHeight - h - 1
  }

  /** One pass of the room loop up to the validity test: a room of the drawn
      size at the drawn origin, or nothing when the size leaves no origin. */
  function CandidateRoom(w: int, h: int, x: int, y: int): (r: Option<Room>)
    requires SizeInRange(w) && SizeInRange(h)
    requires SizeFits(w, h) ==> OriginInRange(w, h, x, y)
    ensures r.Some? <==> h <= 8
    ensures r.Some? ==> r.value.InsideBorder()
    ensures r.Some? ==> r.value == Room(x, y, w, h)
  {
    if SizeFits(w, h) then Some(Room(x, y, w, h)) else None
  }

  datatype Key = KeyUp | KeyDown | KeyLeft | KeyRight | OtherKey

  /** The neighbouring cell in the key's direction (the cell itself for a non-arrow key). */
  function Neighbour(x: int, y: int, key: Key): (int, int) {
    match key
    case KeyUp => (x, y - 1)
    case KeyDown => (x, y + 1)
    case KeyLeft => (x - 1, y)
    case KeyRight => (x + 1, y)
    case OtherKey => (x, y)
  }

  /** The arrow-key rule of the main loop: a step in the key's direction,
      taken only when it does not cross the grid's edge on that side. */
  function Moved(x: int, y: int, key: Key): (p: (int, int))
    ensures p == (x, y) || (p == Neighbour(x, y, key) && Adjacent((x, y), p))
    ensures p.0 < x ==> 0 <= p.0
    ensures p.0 > x ==> p.0 <= DungeonWidth - 1
    ensures p.1 < y ==> 0 <= p.1
    ensures p.1 > y ==> p.1 <= DungeonHeight - 1
    ensures InGrid(x, y) ==> InGrid(p.0, p.1)
    ensures InGrid(x, y) ==> (p == if InGrid(Neighbour(x, y, key).0, Neighbour(x, y, key).1) then Neighbour(x, y, key) else (x, y))
  {
    match key
    case KeyUp => if y > 0 then (x, y - 1) else (x, y)
    case KeyDown => if y < DungeonHeight - 1 then (x, y + 1) else (x, y)
    case KeyLeft => if x > 0 then (x - 1, y) else (x, y)
    case KeyRight => if x < DungeonWidth - 1 then (x + 1, y) else (x, y)
    case OtherKey => (x, y)
  }

  function Min(a: int, b: int): int { if a <= b then a else b }
  function Max(a: int, b: int): int { if a <= b then b else a }

  /** v lies between a and b, both included, whichever is larger. */
  predicate Between(v: int, a: int, b: int) { Min(a, b) <= v <= Max(a, b) }

  /** The cells create_hallway marks between two centres: with the coin up,
      row y1 from x1 to x2 then column x2 from y1 to y2; otherwise column x1
      from y1 to y2 then row y2 from x1 to x2. */
  predicate OnHallway(start: (int, int), end: (int, int), horizontalFirst: bool, cx: int, cy: int) {
    if horizontalFirst then
      (cy == start.1 && Between(cx, start.0, end.0)) || (cx == end.0 && Between(cy, start.1, end.1))
    else
      (cx == start.0 && Between(cy, start.1, end.1)) || (cy == end.1 && Between(cx, start.0, end.0))
  }

  /** The coordinates from a to b, both included, in the order a walk visits them. */
  function Walk(a: int, b: int): (w: seq<int>) {
    seq(Abs(b - a) + 1, i => if a <= b then a + i else a - i)
  }

  /** Consecutive coordinates differ by one. */
  predicate UnitSteps(w: seq<int>) {
    forall i :: 0 <= i < |w| - 1 ==> Abs(w[i] - w[i + 1]) == 1
  }

  /** Consecutive cells share a side. */
  predicate Connected(p: seq<(int, int)>) {
    forall i :: 0 <= i < |p| - 1 ==> Adjacent(p[i], p[i + 1])
  }

  lemma WalkSteps(a: int, b: int)
    ensures var w := Walk(a, b);
      |w| == Abs(b - a) + 1 && w[0] == a && w[|w| - 1] == b && UnitSteps(w) &&
      (forall v :: v in w <==> Between(v, a, b))
  {
    var w := Walk(a, b);
    forall v | Between(v, a, b) ensures v in w {
      assert w[Abs(v - a)] == v;
    }
  }

  /** Without its first entry, a walk holds every coordinate between a and b except a. */
  lemma WalkTail(a: int, b: int)
    ensures var t := Walk(a, b)[1..];
      UnitSteps(t) && (t == [] <==> a == b) &&
      (t != [] ==> Abs(a - t[0]) == 1 && t[|t| - 1] == b) &&
      (forall v :: v in t <==> Between(v, a, b) && v != a)
  {
    var w := Walk(a, b);
    var t := w[1..];
    WalkSteps(a, b);
    forall v | Between(v, a, b) && v != a ensures v in t {
      assert t[Abs(v - a) - 1] == v;
    }
    forall v | v in t ensures v != a {
      var k :| 0 <= k < |t| && t[k] == v;
      assert t[k] == w[k + 1];
    }
  }

  /** The cells of row y at the given x coordinates. */
  function Row(xs: seq<int>, y: int): seq<(int, int)> {
    seq(|xs|, i requires 0 <= i < |xs| => (xs[i], y))
  }

  /** The cells of column x at the given y coordinates. */
  function Column(x: int, ys: seq<int>): seq<(int, int)> {
    seq(|ys|, j requires 0 <= j < |ys| => (x, ys[j]))
  }

  /** A walk along the hallway from start to end, one cell at a time: the
      first leg, then the second leg without the corner they share. */
  function HallwayPath(start: (int, int), end: (int, int), horizontalFirst: bool): seq<(int, int)> {
    if horizontalFirst then
      Row(Walk(start.0, end.0), start.1) + Column(end.0, Walk(start.1, end.1)[1..])
    else
      Column(start.0, Walk(start.1, end.1)) + Row(Walk(start.0, end.0)[1..], end.1)
  }

  lemma RowCells(xs: seq<int>, y: int)
    ensures forall c: (int, int) :: c in Row(xs, y) <==> c.1 == y && c.0 in xs
  {
    var r := Row(xs, y);
    forall c: (int, int) | c.1 == y && c.0 in xs ensures c in r {
      var i :| 0 <= i < |xs| && xs[i] == c.0;
      assert r[i] == c;
    }
    forall c: (int, int) | c in r ensures c.1 == y && c.0 in xs {
      var i :| 0 <= i < |r| && r[i] == c;
      assert xs[i] in xs;
    }
  }

  lemma ColumnCells(x: int, ys: seq<int>)
    ensures forall c: (int, int) :: c in Column(x, ys) <==> c.0 == x && c.1 in ys
  {
    var r := Column(x, ys);
    forall c: (int, int) | c.0 == x && c.1 in ys ensures c in r {
      var j :| 0 <= j < |ys| && ys[j] == c.1;
      assert r[j] == c;
    }
    forall c: (int, int) | c in r ensures c.0 == x && c.1 in ys {
      var j :| 0 <= j < |r| && r[j] == c;
      assert ys[j] in ys;
    }
  }

  lemma RowConnected(xs: seq<int>, y: int)
    requires UnitSteps(xs)
    ensures Connected(Row(xs, y))
  {
  }

  lemma ColumnConnected(x: int, ys: seq<int>)
    requires UnitSteps(ys)
    ensures Connected(Column(x, ys))
  {
  }

  /** A whole leg: a walk from its first cell to its last. */
  lemma RowLeg(a: int, b: int, y: int)
    ensures var p := Row(Walk(a, b), y);
      |p| >= 1 && p[0] == (a, y) && p[|p| - 1] == (b, y) && Connected(p)
  {
    WalkSteps(a, b);
    RowConnected(Walk(a, b), y);
  }

  lemma ColumnLeg(x: int, a: int, b: int)
    ensures var p := Column(x, Walk(a, b));
      |p| >= 1 && p[0] == (x, a) && p[|p| - 1] == (x, b) && Connected(p)
  {
    WalkSteps(a, b);
    ColumnConnected(x, Walk(a, b));
  }

  /** A leg without its corner: empty when the leg is one cell, otherwise a
      walk from the corner's neighbour to the leg's last cell. */
  lemma RowTailLeg(a: int, b: int, y: int)
    ensures var q := Row(Walk(a, b)[1..], y);
      Connected(q) && (q == [] <==> a == b) &&
      (q != [] ==> Adjacent((a, y), q[0]) && q[|q| - 1] == (b, y))
  {
    WalkTail(a, b);
    RowConnected(Walk(a, b)[1..], y);
  }

  lemma ColumnTailLeg(x: int, a: int, b: int)
    ensures var q := Column(x, Walk(a, b)[1..]);
      Connected(q) && (q == [] <==> a == b) &&
      (q != [] ==> Adjacent((x, a), q[0]) && q[|q| - 1] == (x, b))
  {
    WalkTail(a, b);
    ColumnConnected(x, Walk(a, b)[1..]);
  }

  /** A walk to the corner followed by a walk on from the corner is a walk. */
  lemma JoinLegs(p: seq<(int, int)>, q: seq<(int, int)>, start: (int, int), corner: (int, int), end: (int, int))
    requires |p| >= 1 && p[0] == start && p[|p| - 1] == corner && Connected(p) && Connected(q)
    requires q == [] ==> corner == end
    requires q != [] ==> Adjacent(corner, q[0]) && q[|q| - 1] == end
    ensures var r := p + q; |r| >= 1 && r[0] == start && r[|r| - 1] == end && Connected(r)
  {
    var r := p + q;
    forall i | 0 <= i < |r| - 1 ensures Adjacent(r[i], r[i + 1]) {
      if i + 1 < |p| {
        assert r[i] == p[i] && r[i + 1] == p[i + 1];
      } else if i + 1 == |p| {
        assert r[i] == corner && r[i + 1] == q[0];
      } else {
        assert r[i] == q[i - |p|] && r[i + 1] == q[i - |p| + 1];
      }
    }
  }

  /** The hallway walks from the first centre to the second, one side at a time. */
  lemma HallwayWalks(start: (int, int), end: (int, int), horizontalFirst: bool)
    ensures var p := HallwayPath(start, end, horizontalFirst);
      |p| >= 1 && p[0] == start && p[|p| - 1] == end && Connected(p)
  {
    if horizontalFirst {
      RowLeg(start.0, end.0, start.1);
      ColumnTailLeg(end.0, start.1, end.1);
      JoinLegs(Row(Walk(start.0, end.0), start.1), Column(end.0, Walk(start.1, end.1)[1..]),
               start, (end.0, start.1), end);
    } else {
      ColumnLeg(start.0, start.1, end.1);
      RowTailLeg(start.0, end.0, end.1);
      JoinLegs(Column(start.0, Walk(start.1, end.1)), Row(Walk(start.0, end.0)[1..], end.1),
               start, (start.0, end.1), end);
    }
  }

  /** The hallway's cells are exactly the cells create_hallway marks. */
  lemma HallwayCells(start: (int, int), end: (int, int), horizontalFirst: bool)
    ensures forall c: (int, int) :: c in HallwayPath(start, end, horizontalFirst) <==> OnHallway(start, end, horizontalFirst, c.0, c.1)
  {
    WalkSteps(start.0, end.0);
    WalkSteps(start.1, end.1);
    WalkTail(start.0, end.0);
    WalkTail(start.1, end.1);
    if horizontalFirst {
      RowCells(Walk(start.0, end.0), start.1);
      ColumnCells(end.0, Walk(start.1, end.1)[1..]);
    } else {
      ColumnCells(start.0, Walk(start.1, end.1));
      RowCells(Walk(start.0, end.0)[1..], end.1);
    }
  }

  /** The hallway is a 4-connected walk from one centre to the other, and
      its cells are exactly the cells create_hallway marks. */
  lemma HallwayPathConnects(start: (int, int), end: (int, int), horizontalFirst: bool)
    ensures var p := HallwayPath(start, end, horizontalFirst);
      |p| >= 1 && p[0] == start && p[|p| - 1] == end && Connected(p) &&
      (forall c :: c in p <==> OnHallway(start, end, horizontalFirst, c.0, c.1))
  {
    HallwayWalks(start, end, horizontalFirst);
    HallwayCells(start, end, horizontalFirst);
  }
}
