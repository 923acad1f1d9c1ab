/** The dungeon: a 10 x 20 grid of characters indexed grid[y, x], the rooms
    placed so far, the monsters and the items (Deliverable_8.py lines
    138-249). Every random draw is a parameter; each "retry until it fits"
    loop walks a finite sequence of draws and reports failure when the
    draws run out. */
module Level {
  import opened Config
  import opened Geometry
  import opened Progression
  import opened Combat

  /** One pass of the room loop's random draws: size, origin and the
      hallway coin. The origin draws only happen when the size fits. */
  datatype RoomDraw = RoomDraw(w: int, h: int, x: int, y: int, horizontalFirst: bool) {
    predicate WellFormed() {
      SizeInRange(w) && SizeInRange(h) && (SizeFits(w, h) ==> OriginInRange(w, h, x, y))
    }
  }

  /** The coordinates drawn by one spawn loop all lie in [1, W-2] x [1, H-2]. */
  predicate InteriorDraws(tries: seq<(int, int)>) {
    forall j :: 0 <= j < |tries| ==> InInterior(tries[j].0, tries[j].1)
  }

  /** The draws of one monster spawn: its type and the coordinate draws of its retry loop. */
  datatype MonsterDraw = MonsterDraw(monsterType: MonsterType, tries: seq<(int, int)>)

  /** The draws of one item spawn: its type and the coordinate draws of its retry loop. */
  datatype ItemDraw = ItemDraw(itemType: string, tries: seq<(int, int)>) {
    predicate WellFormed() { itemType in ItemTypes && InteriorDraws(tries) }
  }

  const MonsterCount: int := 5
  const ItemCount: int := 5
  const RoomCount: int := 4

  class Dungeon {
    var grid: array2<char>
    var rooms: seq<Room>
    var monsters: seq<Monster>
    var items: seq<Item>

    /** The grid has the dungeon's size, rooms keep the border margin, and
        every monster and item stands inside the border; monsters carry
        their type's stats. */
    ghost predicate Valid()
      reads this
    {
      grid.Length0 == DungeonHeight && grid.Length1 == DungeonWidth &&
      (forall r :: r in rooms ==> r.InsideBorder()) &&
      (forall m :: m in monsters ==> FromTable(m) && InInterior(m.x, m.y)) &&
      (forall it :: it in items ==> it.itemType in ItemTypes && InInterior(it.x, it.y))
    }

    /** Every cell of the grid is '#'. */
    ghost predicate AllWall()
      reads this, grid
    {
      forall cy, cx :: 0 <= cy < grid.Length0 && 0 <= cx < grid.Length1 ==> grid[cy, cx] == '#'
    }

    predicate IsWallAt(c: (int, int))
      reads this, grid
      requires Valid() && InGrid(c.0, c.1)
    {
      grid[c.1, c.0] == '#'
    }

    /** No cell of the room is '#'. */
    ghost predicate RoomFree(room: Room)
      reads this, grid
      requires Valid() && room.InGrid()
    {
      forall cy, cx :: room.Contains(cx, cy) ==> grid[cy, cx] != '#'
    }

    /** Dungeon.__init__ up to the call of generate_dungeon: an all-'#'
        grid and no rooms, monsters or items. */
    constructor ()
      ensures Valid() && AllWall() && fresh(grid)
      ensures rooms == [] && monsters == [] && items == []
    {
      grid := new char[DungeonHeight, DungeonWidth]((cy, cx) => '#');
      rooms, monsters, items := [], [], [];
    }

    /** is_valid_room: the row-by-row scan that stops at the first '#'. */
    method IsValidRoom(room: Room) returns (valid: bool)
      requires Valid() && room.InGrid()
      ensures valid <==> RoomFree(room)
    {
      var cy := room.y;
      while cy < room.y + room.height
        invariant room.y <= cy <= room.y + room.height
        invariant forall yy, xx :: room.Contains(xx, yy) && yy < cy ==> grid[yy, xx] != '#'
      {
        var cx := room.x;
        while cx < room.x + room.width
          invariant room.x <= cx <= room.x + room.width
          invariant forall yy, xx :: room.Contains(xx, yy) && (yy < cy || (yy == cy && xx < cx)) ==> grid[yy, xx] != '#'
        {
          if grid[cy, cx] == '#' {
            assert room.Contains(cx, cy);
            return false;
          }
          cx := cx + 1;
        }
        cy := cy + 1;
      }
      return true;
    }

    /** On an all-'#' grid no non-empty room is free, so is_valid_room rejects every candidate. */
    lemma AllWallRejectsEveryRoom(room: Room)
      requires Valid() && AllWall() && room.InGrid()
      requires 1 <= room.width && 1 <= room.height
      ensures !RoomFree(room)
    {
      assert grid[room.y, room.x] == '#';
    }

    /** create_room: the room's cells become '.', every other cell is kept. */
    method CreateRoom(room: Room)
      requires Valid() && room.InGrid()
      modifies grid
      ensures forall cy, cx :: 0 <= cy < DungeonHeight && 0 <= cx < DungeonWidth ==>
        grid[cy, cx] == if room.Contains(cx, cy) then '.' else old(grid[cy, cx])
    {
      var cy := room.y;
      while cy < room.y + room.height
        invariant room.y <= cy <= room.y + room.height
        invariant forall yy, xx :: 0 <= yy < DungeonHeight && 0 <= xx < DungeonWidth ==>
          grid[yy, xx] == if room.Contains(xx, yy) && yy < cy then '.' else old(grid[yy, xx])
      {
        var cx := room.x;
        while cx < room.x + room.width
          invariant room.x <= cx <= room.x + room.width
          invariant forall yy, xx :: 0 <= yy < DungeonHeight && 0 <= xx < DungeonWidth ==>
            grid[yy, xx] == if room.Contains(xx, yy) && (yy < cy || (yy == cy && xx < cx)) then '.' else old(grid[yy, xx])
        {
          grid[cy, cx] := '.';
          cx := cx + 1;
        }
        cy := cy + 1;
      }
    }

    /** create_horiz_hallway: row y from min(x1, x2) to max(x1, x2) becomes '#'. */
    method CreateHorizHallway(x1: int, x2: int, y: int)
      requires Valid() && InGrid(x1, y) && InGrid(x2, y)
      modifies grid
      ensures forall cy, cx :: 0 <= cy < DungeonHeight && 0 <= cx < DungeonWidth ==>
        grid[cy, cx] == if cy == y && Between(cx, x1, x2) then '#' else old(grid[cy, cx])
    {
      var cx := Min(x1, x2);
      while cx < Max(x1, x2) + 1
        invariant Min(x1, x2) <= cx <= Max(x1, x2) + 1
        invariant forall yy, xx :: 0 <= yy < DungeonHeight && 0 <= xx < DungeonWidth ==>
          grid[yy, xx] == if yy == y && Min(x1, x2) <= xx < cx then '#' else old(grid[yy, xx])
      {
        grid[y, cx] := '#';
        cx := cx + 1;
      }
    }

    /** create_vert_hallway: column x from min(y1, y2) to max(y1, y2) becomes '#'. */
    method CreateVertHallway(y1: int, y2: int, x: int)
      requires Valid() && InGrid(x, y1) && InGrid(x, y2)
      modifies grid
      ensures forall cy, cx :: 0 <= cy < DungeonHeight && 0 <= cx < DungeonWidth ==>
        grid[cy, cx] == if cx == x && Between(cy, y1, y2) then '#' else old(grid[cy, cx])
    {
      var cy := Min(y1, y2);
      while cy < Max(y1, y2) + 1
        invariant Min(y1, y2) <= cy <= Max(y1, y2) + 1
        invariant forall yy, xx :: 0 <= yy < DungeonHeight && 0 <= xx < DungeonWidth ==>
          grid[yy, xx] == if xx == x && Min(y1, y2) <= yy < cy then '#' else old(grid[yy, xx])
      {
        grid[cy, x] := '#';
        cy := cy + 1;
      }
    }

    /** create_hallway: the two legs of the L, in the order the coin picks;
        afterwards every cell of the walk from start to end is '#'. */
    method CreateHallway(start: (int, int), end: (int, int), horizontalFirst: bool)
      requires Valid() && InGrid(start.0, start.1) && InGrid(end.0, end.1)
      modifies grid
      ensures forall cy, cx :: 0 <= cy < DungeonHeight && 0 <= cx < DungeonWidth ==>
        grid[cy, cx] == if OnHallway(start, end, horizontalFirst, cx, cy) then '#' else old(grid[cy, cx])
      ensures forall c :: c in HallwayPath(start, end, horizontalFirst) ==> InGrid(c.0, c.1) && grid[c.1, c.0] == '#'
    {
      if horizontalFirst {
        CreateHorizHallway(start.0, end.0, start.1);
        CreateVertHallway(start.1, end.1, end.0);
      } else {
        CreateVertHallway(start.1, end.1, start.0);
        CreateHorizHallway(start.0, end.0, end.1);
      }
      HallwayPathConnects(start, end, horizontalFirst);
    }

    /** One pass of the room loop of generate_dungeon: keep the drawn room
        only if it fits and is_valid_room accepts it; then carve it, join
        it to the previous room's centre and record it. */
    method TryPlaceRoom(d: RoomDraw) returns (placed: bool)
      requires Valid() && d.WellFormed()
      modifies this, grid
      ensures Valid() && grid == old(grid)
      ensures monsters == old(monsters) && items == old(items)
      ensures var c := CandidateRoom(d.w, d.h, d.x, d.y);
        placed <==> c.Some? && old(RoomFree(c.value))
      ensures rooms == if placed then old(rooms) + [Room(d.x, d.y, d.w, d.h)] else old(rooms)
      ensures !placed ==> forall cy, cx :: 0 <= cy < DungeonHeight && 0 <= cx < DungeonWidth ==>
        grid[cy, cx] == old(grid[cy, cx])
      ensures placed ==> var room := Room(d.x, d.y, d.w, d.h);
        forall cy, cx :: 0 <= cy < DungeonHeight && 0 <= cx < DungeonWidth ==>
          grid[cy, cx] == if old(rooms) != [] && OnHallway(old(rooms)[|old(rooms)| - 1].Center(), room.Center(), d.horizontalFirst, cx, cy)
                          then '#' else if room.Contains(cx, cy) then '.' else old(grid[cy, cx])
      ensures old(AllWall()) ==> !placed && AllWall()
    {
      var candidate := CandidateRoom(d.w, d.h, d.x, d.y);
      if candidate.None? {
        return false;
      }
      var room := candidate.value;
      InsideBorderCells(room);
      if AllWall() {
        AllWallRejectsEveryRoom(room);
      }
      placed := IsValidRoom(room);
      if placed {
        CreateRoom(room);
        if rooms != [] {
          var prev := rooms[|rooms| - 1];
          assert prev in rooms;
          CreateHallway(prev.Center(), room.Center(), d.horizontalFirst);
        }
        rooms := rooms + [room];
      }
    }

    /** The room loop of generate_dungeon: the draws are consumed in order
        until four rooms are placed; running out of draws first is a
        failure. The ghost result picked lists, in order, the indices of the
        draws that became the new rooms. */
    method GenerateRooms(draws: seq<RoomDraw>) returns (complete: bool, ghost picked: seq<nat>)
      requires Valid()
      requires forall k :: 0 <= k < |draws| ==> draws[k].WellFormed()
      modifies this, grid
      ensures Valid() && grid == old(grid)
      ensures monsters == old(monsters) && items == old(items)
      ensures |old(rooms)| <= |rooms| <= |old(rooms)| + RoomCount && rooms[..|old(rooms)|] == old(rooms)
      ensures complete <==> |rooms| == |old(rooms)| + RoomCount
      ensures |picked| == |rooms| - |old(rooms)|
      ensures forall j, k :: 0 <= j < k < |picked| ==> picked[j] < picked[k]
      ensures forall j :: 0 <= j < |picked| ==> (picked[j] < |draws| &&
        rooms[|old(rooms)| + j] == Room(draws[picked[j]].x, draws[picked[j]].y, draws[picked[j]].w, draws[picked[j]].h))
      ensures old(AllWall()) ==> !complete && rooms == old(rooms) && AllWall()
    {
      var i, count := 0, 0;
      picked := [];
      while count < RoomCount && i < |draws|
        invariant 0 <= i <= |draws| && 0 <= count <= RoomCount
        invariant Valid() && grid == old(grid)
        invariant monsters == old(monsters) && items == old(items)
        invariant |rooms| == |old(rooms)| + count && rooms[..|old(rooms)|] == old(rooms)
        invariant |picked| == count
        invariant forall j, k :: 0 <= j < k < |picked| ==> picked[j] < picked[k]
        invariant forall j :: 0 <= j < |picked| ==> (picked[j] < i &&
          rooms[|old(rooms)| + j] == Room(draws[picked[j]].x, draws[picked[j]].y, draws[picked[j]].w, draws[picked[j]].h))
        invariant old(AllWall()) ==> count == 0 && AllWall()
      {
        var ok := TryPlaceRoom(draws[i]);
        if ok {
          picked := picked + [i];
          count := count + 1;
        }
        i := i + 1;
      }
      complete := count == RoomCount;
    }

    /** The retry loop of one spawn: the index of the first drawn cell that
        is '#', or the number of draws when none is. */
    method FirstWallDraw(tries: seq<(int, int)>) returns (k: nat)
      requires Valid() && InteriorDraws(tries)
      ensures k <= |tries|
      ensures k < |tries| ==> IsWallAt(tries[k])
      ensures forall j :: 0 <= j < k ==> !IsWallAt(tries[j])
    {
      k := 0;
      while k < |tries| && !IsWallAt(tries[k])
        invariant k <= |tries|
        invariant forall j :: 0 <= j < k ==> !IsWallAt(tries[j])
      {
        k := k + 1;
      }
    }

    /** One monster of spawn_monsters: a monster of the drawn type on the
        first drawn cell that is '#'. */
    method SpawnMonster(d: MonsterDraw) returns (placed: bool)
      requires Valid() && InteriorDraws(d.tries)
      modifies this
      ensures Valid() && grid == old(grid) && rooms == old(rooms) && items == old(items)
      ensures placed <==> exists j :: 0 <= j < |d.tries| && IsWallAt(d.tries[j])
      ensures !placed ==> monsters == old(monsters)
      ensures placed ==> exists k :: (0 <= k < |d.tries| && IsWallAt(d.tries[k]) &&
        (forall j :: 0 <= j < k ==> !IsWallAt(d.tries[j])) &&
        monsters == old(monsters) + [NewMonster(d.monsterType, d.tries[k].0, d.tries[k].1)])
      ensures old(AllWall()) && d.tries != [] ==> placed && monsters == old(monsters) + [NewMonster(d.monsterType, d.tries[0].0, d.tries[0].1)]
    {
      var k := FirstWallDraw(d.tries);
      if AllWall() && d.tries != [] {
        assert IsWallAt(d.tries[0]);
      }
      placed := k < |d.tries|;
      if placed {
        monsters := monsters + [NewMonster(d.monsterType, d.tries[k].0, d.tries[k].1)];
      }
    }

    /** One item of spawn_items: an item of the drawn type on the first
        drawn cell that is '#'. */
    method SpawnItem(d: ItemDraw) returns (placed: bool)
      requires Valid() && d.WellFormed()
      modifies this
      ensures Valid() && grid == old(grid) && rooms == old(rooms) && monsters == old(monsters)
      ensures placed <==> exists j :: 0 <= j < |d.tries| && IsWallAt(d.tries[j])
      ensures !placed ==> items == old(items)
      ensures placed ==> (|items| == |old(items)| + 1 && items[..|old(items)|] == old(items) &&
        fresh(items[|old(items)|]) && items[|old(items)|].name == d.itemType &&
        items[|old(items)|].itemType == d.itemType &&
        exists k :: (0 <= k < |d.tries| && IsWallAt(d.tries[k]) &&
          (forall j :: 0 <= j < k ==> !IsWallAt(d.tries[j])) &&
          (items[|old(items)|].x, items[|old(items)|].y) == d.tries[k]))
      ensures old(AllWall()) && d.tries != [] ==> placed
    {
      var k := FirstWallDraw(d.tries);
      if AllWall() && d.tries != [] {
        assert IsWallAt(d.tries[0]);
      }
      placed := k < |d.tries|;
      if placed {
        var item := new Item(d.itemType, d.tries[k].0, d.tries[k].1);
        items := items + [item];
      }
    }

    /** spawn_monsters: five monsters, one draw record each; stops with a
        failure at the first monster whose draws run out. */
    method SpawnMonsters(draws: seq<MonsterDraw>) returns (complete: bool)
      requires Valid() && |draws| == MonsterCount
      requires forall i :: 0 <= i < |draws| ==> InteriorDraws(draws[i].tries)
      modifies this
      ensures Valid() && grid == old(grid) && rooms == old(rooms) && items == old(items)
      ensures |old(monsters)| <= |monsters| && monsters[..|old(monsters)|] == old(monsters)
      ensures complete ==> (|monsters| == |old(monsters)| + MonsterCount &&
        forall i :: 0 <= i < MonsterCount ==> monsters[|old(monsters)| + i].monsterType == draws[i].monsterType)
      ensures old(AllWall()) && (forall i :: 0 <= i < |draws| ==> draws[i].tries != []) ==> complete
    {
      var i := 0;
      while i < MonsterCount
        invariant 0 <= i <= MonsterCount
        invariant Valid() && grid == old(grid) && rooms == old(rooms) && items == old(items)
        invariant |monsters| == |old(monsters)| + i && monsters[..|old(monsters)|] == old(monsters)
        invariant forall j :: 0 <= j < i ==> monsters[|old(monsters)| + j].monsterType == draws[j].monsterType
        invariant old(AllWall()) ==> AllWall()
      {
        var ok := SpawnMonster(draws[i]);
        if !ok {
          return false;
        }
        i := i + 1;
      }
      return true;
    }

    /** spawn_items: five items, one draw record each; stops with a failure
        at the first item whose draws run out. */
    method SpawnItems(draws: seq<ItemDraw>) returns (complete: bool)
      requires Valid() && |draws| == ItemCount
      requires forall i :: 0 <= i < |draws| ==> draws[i].WellFormed()
      modifies this
      ensures Valid() && grid == old(grid) && rooms == old(rooms) && monsters == old(monsters)
      ensures |old(items)| <= |items| && items[..|old(items)|] == old(items)
      ensures complete ==> (|items| == |old(items)| + ItemCount &&
        forall i :: 0 <= i < ItemCount ==> (items[|old(items)| + i].name == draws[i].itemType &&
          items[|old(items)| + i].itemType == draws[i].itemType))
      ensures old(AllWall()) && (forall i :: 0 <= i < |draws| ==> draws[i].tries != []) ==> complete
    {
      var i := 0;
      while i < ItemCount
        invariant 0 <= i <= ItemCount
        invariant Valid() && grid == old(grid) && rooms == old(rooms) && monsters == old(monsters)
        invariant |items| == |old(items)| + i && items[..|old(items)|] == old(items)
        invariant forall j :: 0 <= j < i ==> (items[|old(items)| + j].name == draws[j].itemType &&
          items[|old(items)| + j].itemType == draws[j].itemType)
        invariant old(AllWall()) ==> AllWall()
      {
        var ok := SpawnItem(draws[i]);
        if !ok {
          return false;
        }
        i := i + 1;
      }
      return true;
    }

    /** generate_dungeon: four rooms, then the monsters, then the items. On
        the all-'#' grid the room loop never places a room, so generation
        fails for every supply of draws. */
    method GenerateDungeon(roomDraws: seq<RoomDraw>, monsterDraws: seq<MonsterDraw>, itemDraws: seq<ItemDraw>)
      returns (complete: bool)
      requires Valid()
      requires forall k :: 0 <= k < |roomDraws| ==> roomDraws[k].WellFormed()
      requires |monsterDraws| == MonsterCount && forall i :: 0 <= i < |monsterDraws| ==> InteriorDraws(monsterDraws[i].tries)
      requires |itemDraws| == ItemCount && forall i :: 0 <= i < |itemDraws| ==> itemDraws[i].WellFormed()
      modifies this, grid
      ensures Valid() && grid == old(grid)
      ensures |old(rooms)| <= |rooms| && rooms[..|old(rooms)|] == old(rooms)
      ensures |old(monsters)| <= |monsters| && monsters[..|old(monsters)|] == old(monsters)
      ensures |old(items)| <= |items| && items[..|old(items)|] == old(items)
      ensures complete ==> (|rooms| == |old(rooms)| + RoomCount &&
        |monsters| == |old(monsters)| + MonsterCount && |items| == |old(items)| + ItemCount)
      ensures old(AllWall()) ==> !complete && rooms == old(rooms) && monsters == old(monsters) && items == old(items) && AllWall()
    {
      ghost var picked;
      complete, picked := GenerateRooms(roomDraws);
      if !complete {
        return;
      }
      complete := SpawnMonsters(monsterDraws);
      if !complete {
        return;
      }
      complete := SpawnItems(itemDraws);
    }

    /** handle_combat: the monsters on the player's cell, in list order,
        each hit once and give experience; the first non-positive health
        after a meeting ends combat with a defeat. */
    method HandleCombat(player: Player) returns (alive: bool)
      modifies player
      ensures CombatOutcome(old(player.Stats()), old(player.x), old(player.y), monsters) == Outcome(player.Stats(), alive)
      ensures player.x == old(player.x) && player.y == old(player.y) && player.inventory == old(player.inventory)
      ensures old(player.Valid()) ==> player.Valid()
    {
      var i := 0;
      while i < |monsters|
        invariant 0 <= i <= |monsters|
        invariant player.x == old(player.x) && player.y == old(player.y) && player.inventory == old(player.inventory)
        invariant CombatOutcome(old(player.Stats()), player.x, player.y, monsters) == CombatOutcome(player.Stats(), player.x, player.y, monsters[i..])
      {
        var monster := monsters[i];
        assert monsters[i..][1..] == monsters[i + 1..];
        if (player.x, player.y) == (monster.x, monster.y) {
          monster.AttackPlayer(player);
          player.GainExp(EncounterExp);
          if player.health <= 0 {
            return false;
          }
        }
        i := i + 1;
      }
      return true;
    }
  }
}
