/** Monsters and one combat step: every monster on the player's cell hits
    once, the player gains experience for it, and only then is the player's
    health tested (Deliverable_8.py lines 103-114 and 242-249). */
module Combat {
  import opened Config
  import opened Progression

  /** Experience gained for each monster met. */
  const EncounterExp: int := 20

  datatype Monster = Monster(monsterType: MonsterType, health: int, attack: int, defense: int, x: int, y: int) {

    /** attack_player */
    method AttackPlayer(player: Player)
      modifies player
      ensures player.Stats() == Attacked(old(player.Stats()), this)
      ensures player.inventory == old(player.inventory)
      ensures player.x == old(player.x) && player.y == old(player.y)
    {
      var damage := Damage(attack, player.defense);
      player.health := player.health - damage;
    }
  }

  /** The monster's stats are the type table's entry for its type. */
  predicate FromTable(m: Monster) {
    var b := BaseStats(m.monsterType);
    m.health == b.health && m.attack == b.attack && m.defense == b.defense
  }

  /** Monster.__init__ */
  function NewMonster(t: MonsterType, x: int, y: int): (m: Monster)
    ensures FromTable(m) && m.monsterType == t && m.x == x && m.y == y
  {
    var b := BaseStats(t);
    Monster(t, b.health, b.attack, b.defense, x, y)
  }

  /** max(0, attack - defense) */
  function Damage(attack: int, defense: int): (d: int)
    ensures d >= 0 && d >= attack - defense
    ensures d == 0 || d == attack - defense
  {
    if 0 >= attack - defense then 0 else attack - defense
  }

  /** The player after one hit of the monster: only health changes, and it never rises. */
  function Attacked(s: PlayerStats, m: Monster): (r: PlayerStats)
    ensures r.(health := s.health) == s
    ensures r.health <= s.health
    ensures m.attack <= s.defense ==> r == s
    ensures m.attack > s.defense ==> r.health == s.health - (m.attack - s.defense)
  {
    s.(health := s.health - Damage(m.attack, s.defense))
  }

  /** One meeting: the hit, then the experience, which may level the player
      up and so refill health before health is looked at. */
  function Encounter(s: PlayerStats, m: Monster): (r: PlayerStats)
    ensures s.exp + EncounterExp < LevelUpExp ==> r.health == s.health - Damage(m.attack, s.defense)
    ensures s.exp + EncounterExp >= LevelUpExp ==> r.health == s.maxHealth + 20
    ensures r.exp < LevelUpExp
    ensures s.exp >= 0 ==> r.exp >= 0
  {
    Attacked(s, m).GainExp(EncounterExp)
  }

  datatype Outcome = Outcome(player: PlayerStats, alive: bool)

  /** handle_combat over the monster list in order, stopping at the first
      meeting after which the player's health is not positive. */
  function CombatOutcome(s: PlayerStats, px: int, py: int, ms: seq<Monster>): (r: Outcome)
    ensures !r.alive ==> r.player.health <= 0
    ensures s.exp < LevelUpExp ==> r.player.exp < LevelUpExp
    ensures s.exp >= 0 ==> r.player.exp >= 0
    ensures s.level <= r.player.level
    decreases |ms|
  {
    if ms == [] then Outcome(s, true)
    else if (px, py) == (ms[0].x, ms[0].y) then
      var t := Encounter(s, ms[0]);
      if t.health <= 0 then Outcome(t, false) else CombatOutcome(t, px, py, ms[1..])
    else CombatOutcome(s, px, py, ms[1..])
  }

  /** The monsters standing on the cell (px, py), in list order. */
  function AtCell(ms: seq<Monster>, px: int, py: int): (r: seq<Monster>)
    ensures |r| <= |ms|
    ensures forall m :: m in r <==> m in ms && (m.x, m.y) == (px, py)
  {
    if ms == [] then []
    else if (ms[0].x, ms[0].y) == (px, py) then [ms[0]] + AtCell(ms[1..], px, py)
    else AtCell(ms[1..], px, py)
  }

  /** Monsters elsewhere play no part: combat depends only on those on the player's cell. */
  lemma {:induction false} CombatOnlyAtCell(s: PlayerStats, px: int, py: int, ms: seq<Monster>)
    ensures CombatOutcome(s, px, py, ms) == CombatOutcome(s, px, py, AtCell(ms, px, py))
    decreases |ms|
  {
    if ms != [] {
      var rest := AtCell(ms[1..], px, py);
      if (px, py) == (ms[0].x, ms[0].y) {
        var t := Encounter(s, ms[0]);
        assert ([ms[0]] + rest)[1..] == rest;
        CombatOnlyAtCell(t, px, py, ms[1..]);
      } else {
        CombatOnlyAtCell(s, px, py, ms[1..]);
      }
    }
  }

  /** With no monster on the player's cell, nothing changes and the player lives,
      whatever its health. */
  lemma NoMonsterNoCombat(s: PlayerStats, px: int, py: int, ms: seq<Monster>)
    requires forall m :: m in ms ==> (m.x, m.y) != (px, py)
    ensures CombatOutcome(s, px, py, ms) == Outcome(s, true)
  {
  }

  /** A player who met at least one monster and is reported alive has positive health. */
  lemma {:induction false} SurvivorHasHealth(s: PlayerStats, px: int, py: int, ms: seq<Monster>)
    requires AtCell(ms, px, py) != []
    requires CombatOutcome(s, px, py, ms).alive
    ensures CombatOutcome(s, px, py, ms).player.health > 0
    decreases |ms|
  {
    var t := Encounter(s, ms[0]);
    if (px, py) == (ms[0].x, ms[0].y) {
      if AtCell(ms[1..], px, py) != [] {
        SurvivorHasHealth(t, px, py, ms[1..]);
      } else {
        NoMonsterNoCombat(t, px, py, ms[1..]);
      }
    } else {
      SurvivorHasHealth(s, px, py, ms[1..]);
    }
  }

  /** Each monster met gives at most one level. */
  lemma {:induction false} CombatLevelBound(s: PlayerStats, px: int, py: int, ms: seq<Monster>)
    ensures CombatOutcome(s, px, py, ms).player.level <= s.level + |AtCell(ms, px, py)|
    decreases |ms|
  {
    if ms != [] {
      if (px, py) == (ms[0].x, ms[0].y) {
        CombatLevelBound(Encounter(s, ms[0]), px, py, ms[1..]);
      } else {
        CombatLevelBound(s, px, py, ms[1..]);
      }
    }
  }

  /** The level-up refill comes before the health test: a player at 5
      health and 80 experience who meets a Dragon is hit down to -20, levels
      up to 120 health and is reported alive. */
  lemma LevelUpSavesFromDragon()
    ensures var s := PlayerStats(5, 10, 5, 1, 80, 100);
      CombatOutcome(s, 3, 3, [NewMonster(Dragon, 3, 3)]) == Outcome(PlayerStats(120, 15, 7, 2, 0, 120), true)
  {
  }
}
