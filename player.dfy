/** The player: integer stats, experience and levels, and an inventory of
    at most MaxInventory items (Deliverable_8.py lines 28-82 and 117-122). */
module Progression {
  import opened Config
  import opened Geometry

  /** An item on the floor or in the inventory. Python compares these
      objects by identity (the class defines no equality), so the model
      keeps them as objects: two items with the same name are still two. */
  class Item {
    const itemType: string
    const name: string
    const x: int
    const y: int

    constructor (itemType: string, x: int, y: int)
      ensures this.itemType == itemType && name == itemType
      ensures this.x == x && this.y == y
    {
      this.itemType := itemType;
      this.name := itemType;
      this.x := x;
      this.y := y;
    }
  }

  /** The player's numeric state, the part that combat and items change. */
  datatype PlayerStats = PlayerStats(health: int, attackDamage: int, defense: int, level: int, exp: int, maxHealth: int) {

    /** level_up: one more level, experience back to 0, 20 more maximum
        health with health refilled to it, 5 more attack and 2 more defense. */
    function LevelUp(): PlayerStats {
      this.(level := level + 1, exp := 0, maxHealth := maxHealth + 20, health := maxHealth + 20,
            attackDamage := attackDamage + 5, defense := defense + 2)
    }

    /** gain_exp: below the threshold only experience changes; at or above
        it exactly one level-up happens and the overshoot is discarded. */
    function GainExp(amount: int): (r: PlayerStats)
      ensures exp + amount < LevelUpExp ==> r == this.(exp := exp + amount)
      ensures exp + amount >= LevelUpExp ==>
        r.level == level + 1 && r.exp == 0 && r.maxHealth == maxHealth + 20 && r.health == r.maxHealth &&
        r.attackDamage == attackDamage + 5 && r.defense == defense + 2
      ensures r.exp < LevelUpExp
      ensures exp >= 0 && amount >= 0 ==> r.exp >= 0
      ensures level <= r.level <= level + 1
    {
      var gained := this.(exp := exp + amount);
      if gained.exp >= LevelUpExp then gained.LevelUp() else gained
    }

    /** The stat change of use_item for an item of the given name: first
        dispatched on the "potion" or "scroll" prefix, then on the full name.
        Healing is not capped at maxHealth. */
    function UseItem(name: string): (r: PlayerStats)
      ensures r.level == level && r.exp == exp && r.maxHealth == maxHealth
      ensures r.health >= health && r.attackDamage >= attackDamage && r.defense >= defense
      ensures name !in PotionTypes && name !in ScrollTypes ==> r == this
    {
      if "potion" <= name then
        if name == "potion_heal" then this.(health := health + 20)
        else if name == "potion_attack" then this.(attackDamage := attackDamage + 5)
        else if name == "potion_defense" then this.(defense := defense + 5)
        else this
      else if "scroll" <= name then
        if name == "scroll_heal" then this.(health := health + 30)
        else if name == "scroll_attack" then this.(attackDamage := attackDamage + 10)
        else if name == "scroll_defense" then this.(defense := defense + 10)
        else this
      else this
    }
  }

  /** A starting player with 90 experience who gains 20 reaches level 2
      with 120 maximum health, full health, 15 attack and 7 defense. */
  lemma LevelUpExample()
    ensures PlayerStats(100, 10, 5, 1, 90, 100).GainExp(20) == PlayerStats(120, 15, 7, 2, 0, 120)
  {
  }

  /** The effect of each item name on health, attack and defense, as one
      flat table. */
  datatype Bonus = Bonus(health: int, attack: int, defense: int)

  function ItemBonus(name: string): Bonus {
    if name == "potion_heal" then Bonus(20, 0, 0)
    else if name == "potion_attack" then Bonus(0, 5, 0)
    else if name == "potion_defense" then Bonus(0, 0, 5)
    else if name == "scroll_heal" then Bonus(30, 0, 0)
    else if name == "scroll_attack" then Bonus(0, 10, 0)
    else if name == "scroll_defense" then Bonus(0, 0, 10)
    else Bonus(0, 0, 0)
  }

  /** The prefix dispatch of use_item adds exactly the table's bonus. */
  lemma UseItemAddsBonus(s: PlayerStats, name: string)
    ensures var b := ItemBonus(name);
      s.UseItem(name) == s.(health := s.health + b.health, attackDamage := s.attackDamage + b.attack,
                            defense := s.defense + b.defense)
  {
  }

  /** Python's list.remove: drop the first entry equal to v. */
  function RemoveFirst<T(==)>(s: seq<T>, v: T): (r: seq<T>)
    requires v in s
    ensures |r| == |s| - 1
  {
    if s[0] == v then s[1..] else [s[0]] + RemoveFirst(s[1..], v)
  }

  /** The index of the first entry equal to v. */
  function FirstIndex<T(==)>(s: seq<T>, v: T): (i: nat)
    requires v in s
    ensures i < |s| && s[i] == v
    ensures forall j :: 0 <= j < i ==> s[j] != v
  {
    if s[0] == v then 0 else 1 + FirstIndex(s[1..], v)
  }

  /** list.remove cuts out the first occurrence and keeps the order of the rest. */
  lemma {:induction false} RemoveFirstCutsFirst<T>(s: seq<T>, v: T)
    requires v in s
    ensures RemoveFirst(s, v) == s[..FirstIndex(s, v)] + s[FirstIndex(s, v) + 1..]
  {
    if s[0] != v {
      var t := s[1..];
      RemoveFirstCutsFirst(t, v);
      var i := FirstIndex(t, v);
      assert FirstIndex(s, v) == i + 1;
      calc {
        RemoveFirst(s, v);
        [s[0]] + RemoveFirst(t, v);
        [s[0]] + (t[..i] + t[i + 1..]);
        ([s[0]] + t[..i]) + t[i + 1..];
        { assert [s[0]] + t[..i] == s[..i + 1]; assert t[i + 1..] == s[i + 2..]; }
        s[..i + 1] + s[i + 2..];
      }
    }
  }

  /** When no item occurs twice, using inventory[k] removes exactly slot k. */
  lemma RemoveDistinctAt<T>(s: seq<T>, k: nat)
    requires k < |s|
    requires forall i, j :: 0 <= i < j < |s| ==> s[i] != s[j]
    ensures RemoveFirst(s, s[k]) == s[..k] + s[k + 1..]
  {
    RemoveFirstCutsFirst(s, s[k]);
    var i := FirstIndex(s, s[k]);
    assert i == k;
  }

  class Player {
    var x: int
    var y: int
    var health: int
    var attackDamage: int
    var defense: int
    var level: int
    var exp: int
    var inventory: seq<Item>
    var maxHealth: int

    /** The numeric state. */
    function Stats(): PlayerStats
      reads this
    {
      PlayerStats(health, attackDamage, defense, level, exp, maxHealth)
    }

    /** What every operation of the class keeps: the position on the grid,
        the inventory within its capacity and experience below the level-up
        threshold. */
    ghost predicate Valid()
      reads this
    {
      InGrid(x, y) && |inventory| <= MaxInventory && 0 <= exp < LevelUpExp && 1 <= level
    }

    constructor ()
      ensures Valid()
      ensures x == 2 && y == 2 && inventory == []
      ensures Stats() == PlayerStats(PlayerHealth, PlayerAttack, PlayerDefense, 1, 0, PlayerHealth)
    {
      x, y := 2, 2;
      health := PlayerHealth;
      attackDamage := PlayerAttack;
      defense := PlayerDefense;
      level := 1;
      exp := 0;
      inventory := [];
      maxHealth := PlayerHealth;
    }

    /** pick_up_item: append when there is room, refuse otherwise. */
    method PickUpItem(item: Item) returns (ok: bool)
      modifies this
      ensures ok <==> old(|inventory|) < MaxInventory
      ensures inventory == if ok then old(inventory) + [item] else old(inventory)
      ensures Stats() == old(Stats()) && x == old(x) && y == old(y)
      ensures old(Valid()) ==> Valid()
    {
      if |inventory| < MaxInventory {
        inventory := inventory + [item];
        return true;
      }
      return false;
    }

    method GainExp(amount: int)
      modifies this
      ensures Stats() == old(Stats()).GainExp(amount)
      ensures inventory == old(inventory) && x == old(x) && y == old(y)
      ensures old(Valid()) && amount >= 0 ==> Valid()
    {
      exp := exp + amount;
      if exp >= LevelUpExp {
        LevelUp();
      }
    }

    method LevelUp()
      modifies this
      ensures Stats() == old(Stats()).LevelUp()
      ensures inventory == old(inventory) && x == old(x) && y == old(y)
    {
      level := level + 1;
      exp := 0;
      maxHealth := maxHealth + 20;
      health := maxHealth;
      attackDamage := attackDamage + 5;
      defense := defense + 2;
    }

    /** use_item: apply the item's effect, then remove the item from the
        inventory (its first occurrence, which is slot index when no item
        occurs twice). */
    method UseItem(index: nat)
      requires index < |inventory|
      modifies this
      ensures Stats() == old(Stats()).UseItem(old(inventory[index]).name)
      ensures inventory == RemoveFirst(old(inventory), old(inventory[index]))
      ensures |inventory| == old(|inventory|) - 1
      ensures x == old(x) && y == old(y)
      ensures old(Valid()) ==> Valid()
    {
      var item := inventory[index];
      if "potion" <= item.name {
        if item.name == "potion_heal" {
          health := health + 20;
        } else if item.name == "potion_attack" {
          attackDamage := attackDamage + 5;
        } else if item.name == "potion_defense" {
          defense := defense + 5;
        }
      } else if "scroll" <= item.name {
        if item.name == "scroll_heal" {
          health := health + 30;
        } else if item.name == "scroll_attack" {
          attackDamage := attackDamage + 10;
        } else if item.name == "scroll_defense" {
          defense := defense + 10;
        }
      }
      inventory := RemoveFirst(inventory, item);
    }

    /** The arrow-key movement of the main loop. */
    method Move(key: Key)
      modifies this
      ensures (x, y) == Moved(old(x), old(y), key)
      ensures Stats() == old(Stats()) && inventory == old(inventory)
      ensures old(Valid()) ==> Valid()
    {
      if key == KeyUp && y > 0 {
        y := y - 1;
      } else if key == KeyDown && y < DungeonHeight - 1 {
        y := y + 1;
      } else if key == KeyLeft && x > 0 {
        x := x - 1;
      } else if key == KeyRight && x < DungeonWidth - 1 {
        x := x + 1;
      }
    }
  }
}
