/** Fixed configuration of the dungeon: grid size, room size bounds, the
    player's starting stats, progression constants and the monster and item
    type tables (Deliverable_8.py lines 5-25). */
module Config {

  const DungeonWidth: int := 20
  const DungeonHeight: int := 10
  const RoomMinSize: int := 5
  const RoomMaxSize: int := 10
  const PlayerHealth: int := 100
  const PlayerAttack: int := 10
  const PlayerDefense: int := 5
  const MaxInventory: int := 10
  /** Experience required to level up. */
  const LevelUpExp: int := 100

  /** The keys of the monster type table, in the table's order. */
  datatype MonsterType = Goblin | Kestral | Snake | Dragon | Blob

  datatype MonsterStats = MonsterStats(health: int, attack: int, defense: int)

  /** The monster type table: base health, attack and defense of each type. */
  function BaseStats(t: MonsterType): MonsterStats {
    match t
    case Goblin => MonsterStats(20, 5, 2)
    case Kestral => MonsterStats(40, 15, 5)
    case Snake => MonsterStats(60, 20, 10)
    case Dragon => MonsterStats(100, 30, 20)
    case Blob => MonsterStats(25, 8, 3)
  }

  /** Item names the dungeon scatters on the floor. */
  const ItemTypes: seq<string> :=
    ["potion_heal", "weapon_sword", "armor_shield", "scroll_identity", "food_ration", "magic_ring", "gold_coin"]
  const PotionTypes: seq<string> := ["potion_heal", "potion_attack", "potion_defense"]
  const ScrollTypes: seq<string> := ["scroll_heal", "scroll_attack", "scroll_defense"]
}
