# Rogue dungeon engine, modelled in Dafny

This project models the game engine of the one-file curses roguelike
`Deliverable_8.py`, without its terminal code. The engine has four parts:

- **The player.** Integer stats, experience with a level-up at 100 points, and an
  inventory of at most 10 items. Picking up, using and removing items are modelled.
- **Monsters.** Each monster takes its health, attack and defense from a fixed
  table of five types.
- **The dungeon.** A 10-row by 20-column character grid, indexed `grid[y, x]`.
  Rooms are carved as `'.'` rectangles. Hallways are carved as `'#'` L-shapes
  between room centres. Monsters and items spawn on `'#'` cells.
- **One combat step.** Each monster on the player's cell, in list order, hits
  once. The player then gains 20 experience, and health is tested. The first
  failed test ends combat, so the monsters after it never hit.

The model follows the code's own form:

- `Player` is a class whose methods change its fields.
- The grid is an `array2<char>` written by nested loops.
- `is_valid_room` and the spawn retry loops are loops that only read the grid.
- Room centres, the room-size rule, damage, the arrow-key rule and the stat
  changes are functions. The methods are proved against these functions, and
  lemmas prove the functions' properties.

Every random draw is a parameter of the method that uses it: room sizes and
origins, the hallway coin, monster and item types, spawn coordinates.

The code has one consequence that the model proves rather than corrects:

1. The grid starts all `'#'`.
2. Hallways only write `'#'`.
3. `is_valid_room` rejects any rectangle that contains a `'#'`.

So no candidate room is ever accepted, and `generate_dungeon`'s room loop never
ends. `Level.Dungeon.AllWallRejectsEveryRoom` states this for one candidate.
`TryPlaceRoom`, `GenerateRooms` and `GenerateDungeon` carry it through every
supply of draws: each reports failure and leaves the grid all `'#'`.

Three facts about the code that the model keeps:

- The code does not cap healing at `max_health`.
- `is_valid_room` tests for `'#'`, not for overlap with earlier rooms.
- There are no doors, stairs, traps, hit chances or multi-round fights.

## Model

| member | source | states |
|---|---|---|
| Geometry.Room.Center | Deliverable_8.py:132-135 | The centre `(x + w//2, y + h//2)` lies in the room whenever width and height are at least 1, and inside the grid's border when the room is |
| Geometry.CandidateRoom | Deliverable_8.py:149-159 | A drawn size gives a room exactly when the height is at most 8 (every width 5-10 fits); such a room is the drawn rectangle and lies inside `[1,W-2]x[1,H-2]` |
| Geometry.Moved | Deliverable_8.py:279-286 | An arrow key moves the player at most one cell, to the key's neighbour; a step never crosses the grid's edge on the side it moves to; from a cell on the grid the player moves to the neighbour exactly when the neighbour is on the grid, and so stays on the grid |
| Geometry.HallwayPathConnects | Deliverable_8.py:204-220 | For either coin value, the hallway is a walk from the first centre to the second in which consecutive cells share a side, and its cells are exactly the cells the hallway helpers mark |
| Progression.Item.constructor | Deliverable_8.py:117-122 | An item's type and name are both the drawn type, at the given position |
| Progression.PlayerStats.GainExp | Deliverable_8.py:46-57 | Below the threshold only experience changes; at or above it exactly one level-up: level +1, experience 0 (overshoot discarded), max health +20, health refilled to max, attack +5, defense +2; afterwards experience is always below 100 and the level rose by at most one |
| Progression.LevelUpExample | Deliverable_8.py:46-57 | Experience 90 plus 20 from the starting stats gives level 2, max health 120, health 120, attack 15, defense 7 |
| Progression.PlayerStats.UseItem | Deliverable_8.py:59-80 | An item never lowers a stat and never changes level, experience or max health; a name that is no potion or scroll changes nothing |
| Progression.UseItemAddsBonus | Deliverable_8.py:61-80 | The prefix dispatch of use_item adds exactly the flat bonus table's health, attack and defense for each name: heal potion +20, attack potion +5, defense potion +5, heal scroll +30, attack scroll +10, defense scroll +10, other names nothing |
| Progression.RemoveFirstCutsFirst | Deliverable_8.py:82 | `list.remove` cuts out the first entry equal to the item and keeps the other entries in order |
| Progression.RemoveDistinctAt | Deliverable_8.py:60-82 | When no item object occurs twice, using slot k removes exactly slot k |
| Progression.Player.constructor | Deliverable_8.py:29-38 | The player starts at (2, 2) with 100/100 health, attack 10, defense 5, level 1, no experience and an empty inventory |
| Progression.Player.PickUpItem | Deliverable_8.py:40-44 | Returns true exactly when the inventory held fewer than 10 items, and then appends the item; otherwise the inventory is unchanged; the inventory bound is preserved |
| Progression.Player.GainExp | Deliverable_8.py:46-49 | The new stats are the old stats after `PlayerStats.GainExp`; position and inventory are unchanged; the class invariant is kept for non-negative amounts |
| Progression.Player.LevelUp | Deliverable_8.py:51-57 | The new stats are the old stats after one level-up; position and inventory are unchanged |
| Progression.Player.UseItem | Deliverable_8.py:59-82 | For a valid slot, the stats change by that item's effect and the inventory loses that item's first occurrence, one entry fewer |
| Progression.Player.Move | Deliverable_8.py:279-286 | The new position is the old one after the arrow-key rule; stats and inventory are unchanged; the class invariant is kept, so the player, who starts at (2, 2), is on the grid at all times |
| Combat.NewMonster | Deliverable_8.py:104-110 | A new monster has its type's health, attack and defense from the type table (`Config.BaseStats`, lines 14-20), at the given position |
| Combat.Damage | Deliverable_8.py:113 | `max(0, attack - defense)`: never negative, at least `attack - defense`, and either 0 or exactly that difference |
| Combat.Attacked | Deliverable_8.py:112-114 | A hit changes only health; health never rises; an attack not above the defense does nothing; otherwise health drops by exactly the difference and may go negative |
| Combat.Monster.AttackPlayer | Deliverable_8.py:112-114 | The player's stats become `Attacked` of the old stats; position and inventory are unchanged |
| Combat.Encounter | Deliverable_8.py:245-247 | After the hit and the 20 experience, health is the damaged health when no level-up happens, and the raised maximum when one does, whatever the damage |
| Combat.CombatOutcome | Deliverable_8.py:242-249 | A reported defeat comes with health at or below 0; experience stays in `[0, 100)` when it starts there; the level never drops |
| Combat.CombatOnlyAtCell | Deliverable_8.py:243-244 | Combat depends only on the monsters on the player's cell, taken in list order |
| Combat.NoMonsterNoCombat | Deliverable_8.py:242-249 | With no monster on the player's cell the stats are unchanged and the result is True, even when health is already at or below 0 |
| Combat.SurvivorHasHealth | Deliverable_8.py:246-249 | A player who met at least one monster and is reported alive has positive health |
| Combat.CombatLevelBound | Deliverable_8.py:243-246 | Each monster met gives at most one level |
| Combat.LevelUpSavesFromDragon | Deliverable_8.py:245-248 | The health test sees the refilled health: at 5 health and 80 experience a Dragon's hit takes health to -20, the level-up refills it to 120, and the player is reported alive |
| Level.Dungeon.constructor | Deliverable_8.py:139-143 | A new dungeon has a 10 x 20 grid of `'#'` and no rooms, monsters or items |
| Level.Dungeon.IsValidRoom | Deliverable_8.py:173-179 | The scan returns true exactly when no cell of the room is `'#'`, and changes nothing |
| Level.Dungeon.AllWallRejectsEveryRoom | Deliverable_8.py:173-179 | On an all-`'#'` grid no non-empty room is free, so every candidate is rejected |
| Level.Dungeon.CreateRoom | Deliverable_8.py:199-202 | Exactly the room's cells become `'.'`; every other cell is unchanged |
| Level.Dungeon.CreateHorizHallway | Deliverable_8.py:214-216 | Exactly row y from min to max of x1, x2 (inclusive) becomes `'#'`; every other cell is unchanged |
| Level.Dungeon.CreateVertHallway | Deliverable_8.py:218-220 | Exactly column x from min to max of y1, y2 (inclusive) becomes `'#'`; every other cell is unchanged |
| Level.Dungeon.CreateHallway | Deliverable_8.py:204-212 | Exactly the L-shape the coin picks becomes `'#'`; both endpoints, the corner and every cell of the connecting walk are `'#'` |
| Level.Dungeon.TryPlaceRoom | Deliverable_8.py:148-168 | A draw places its room exactly when the size fits and the room was free. Then the room is carved, joined by a hallway to the previous room's centre (if there is one) and appended. Otherwise nothing changes. From an all-`'#'` grid nothing is ever placed |
| Level.Dungeon.GenerateRooms | Deliverable_8.py:147-168 | Draws are consumed in order until four rooms are placed. The old rooms are kept as a prefix, and each new room is the rectangle of a draw, the draws taken in increasing order. Success means exactly four more rooms. From an all-`'#'` grid it always fails, with rooms and grid unchanged |
| Level.Dungeon.FirstWallDraw | Deliverable_8.py:184-188 | The retry loop stops at the first drawn cell that is `'#'`. Every earlier draw was not `'#'`. The draws' length means none was |
| Level.Dungeon.SpawnMonster | Deliverable_8.py:183-188 | A monster of the drawn type, with its table stats, is appended at the first `'#'` draw; none is appended when no draw is `'#'`; on an all-`'#'` grid the first draw is taken |
| Level.Dungeon.SpawnItem | Deliverable_8.py:192-197 | A new item, whose type and name are both the drawn type, is appended at the first `'#'` draw; none when no draw is `'#'`; on an all-`'#'` grid a draw is always taken |
| Level.Dungeon.SpawnMonsters | Deliverable_8.py:181-188 | Success appends five monsters of the drawn types. Every monster stands in `[1,W-2]x[1,H-2]` with its table stats. On an all-`'#'` grid it always succeeds when every draw record has at least one coordinate draw |
| Level.Dungeon.SpawnItems | Deliverable_8.py:190-197 | Success appends five items whose type and name are the drawn types. Every item stands in `[1,W-2]x[1,H-2]`. On an all-`'#'` grid it always succeeds when every draw record has at least one coordinate draw |
| Level.Dungeon.GenerateDungeon | Deliverable_8.py:146-171 | The old rooms, monsters and items are kept as prefixes. Success means four rooms, five monsters and five items more. From an all-`'#'` grid it always fails, adds no room, monster or item, and leaves the grid all `'#'` |
| Level.Dungeon.HandleCombat | Deliverable_8.py:242-249 | The loop's result and the player's new stats are those of `CombatOutcome` over the monster list. Position and inventory are unchanged, and the player's class invariant is kept. Only the player is modified, never a monster or the list |

## Left out

- Terminal I/O: `render`, the menu loop of `open_inventory`, `show_help`, the reading of keys in `main`, `curses.wrapper`, the `stdscr.addstr` messages inside `use_item`, and `time.sleep`. They only draw or read the terminal.
- `random`: every draw is a parameter. The `while True` retry loops (lines 148, 184, 193) walk a finite sequence of draws. When the draws run out they report failure instead of drawing forever.
- The keys `q`, `i` and `h` in `main`: only the arrow-key movement and the call of `handle_combat` are modelled. `Player.Move` takes the key as a parameter.
- Python's negative-index wrap-around: the `requires` clauses keep every grid index on the grid. The callers only produce such indices.
- `Geometry.Room.InGrid`, required by `IsValidRoom` and `CreateRoom`, also asks for a non-negative width and height. Every caller passes sizes from 5 to 10.
- `HALLWAY_WIDTH`: the source declares it and never uses it.
- A monster's `health`: it is set from the table and never read. It is kept as a field.
- Level.Dungeon.SpawnMonsters: states the types of the new monsters and, through the class invariant, their bounds and table stats. Which draw placed each monster is stated per monster by `SpawnMonster`.
- Level.Dungeon.SpawnItems: states the types and names of the new items and, through the class invariant, their bounds. Which draw placed each item is stated per item by `SpawnItem`.
- Level.Dungeon.GenerateRooms: states which draws became the new rooms, but not the grid after they are carved and joined, nor why each skipped draw was rejected. Both depend on the grid at the time of each draw, and `TryPlaceRoom` states them draw by draw. From the all-`'#'` grid the program starts with, success cannot happen, and the contract is then complete.
- Level.Dungeon.GenerateDungeon: on success, states the counts and the kept prefixes, not which draws became the new rooms, monsters and items. `GenerateRooms`, `SpawnMonsters` and `SpawnItems` state those parts.
- Behaviour that `Deliverable_8.py` does not contain: doors, stairs, traps, monster movement, multi-round combat, hit chances, the player attacking, healing capped at max health, picking items up during play, and movement blocked by walls.
