/**
 * dynamics.py: the Fighter's effective stats and its combat and status
 * operations, the three AI behaviours, and the two death transformations.
 * Each Fighter or AI method takes as its receiver the entity that owns the
 * component (`self.owner` in the Python code).
 */
module Dynamics {
  import opened Wrappers
  import opened Messages
  import opened Text
  import opened Lists
  import opened Components

  // ---------------------------------------------------------------------
  // Effective stats: base value plus the bonuses of the equipped items
  // ---------------------------------------------------------------------

  datatype Stat = PowerStat | DefenseStat | MaxHpStat | MaxMpStat

  function Bonus(q: Equipment, s: Stat): int
  {
    match s
    case PowerStat => q.powerBonus
    case DefenseStat => q.defenseBonus
    case MaxHpStat => q.maxHpBonus
    case MaxMpStat => q.maxMpBonus
  }

  /** The Equipment components of a list of items. */
  function EquipmentOf(items: seq<Entity>): set<Equipment>
  {
    set i | 0 <= i < |items| && items[i].equipment != null :: items[i].equipment
  }

  lemma EquipmentOfPrefix(items: seq<Entity>, n: nat)
    requires n <= |items|
    ensures EquipmentOf(items[..n]) <= EquipmentOf(items)
  {
    forall q | q in EquipmentOf(items[..n]) ensures q in EquipmentOf(items) {
      var i :| 0 <= i < n && items[..n][i].equipment == q;
      assert items[i].equipment == q;
    }
  }

  /** `get_all_equipped` as a specification: the equipped Equipment of the items, in inventory order. */
  function AllEquipped(items: seq<Entity>): (r: seq<Equipment>)
    reads EquipmentOf(items)
    decreases |items|
  {
    if items == [] then []
    else
      EquipmentOfPrefix(items, |items| - 1);
      var last := items[|items| - 1];
      AllEquipped(items[..|items| - 1]) + (if last.equipment != null && last.equipment.isEquipped then [last.equipment] else [])
  }

  /** An Equipment is listed exactly when some item carries it and it is equipped. */
  lemma {:induction false} AllEquippedMembers(items: seq<Entity>, q: Equipment)
    ensures q in AllEquipped(items) <==>
      q.isEquipped && exists i :: 0 <= i < |items| && items[i].equipment == q
    decreases |items|
  {
    if items != [] {
      var n := |items| - 1;
      AllEquippedMembers(items[..n], q);
      if q.isEquipped && exists i :: 0 <= i < |items| && items[i].equipment == q {
        var i :| 0 <= i < |items| && items[i].equipment == q;
        if i < n {
          assert items[..n][i].equipment == q;
        }
      }
      if q in AllEquipped(items[..n]) {
        var i :| 0 <= i < n && items[..n][i].equipment == q;
        assert items[i].equipment == q;
      }
    }
  }

  /** `get_all_equipped(obj)`: the loop over `obj.inventory`. */
  method GetAllEquipped(obj: Entity) returns (equipped: seq<Equipment>)
    ensures equipped == AllEquipped(obj.inventory)
  {
    var items := obj.inventory;
    equipped := [];
    var i := 0;
    while i < |items|
      invariant 0 <= i <= |items|
      invariant equipped == AllEquipped(items[..i])
    {
      assert items[..i + 1][..i] == items[..i];
      var it := items[i];
      if it.equipment != null && it.equipment.isEquipped {
        equipped := equipped + [it.equipment];
      }
      i := i + 1;
    }
    assert items[..i] == items;
  }

  /** `sum(equipment.<stat>_bonus for equipment in equipped)` */
  function BonusSum(eqs: seq<Equipment>, s: Stat): int
    decreases |eqs|
  {
    if eqs == [] then 0 else BonusSum(eqs[..|eqs| - 1], s) + Bonus(eqs[|eqs| - 1], s)
  }

  /** The total bonus of the equipped items, recomputed from the flags on every read. */
  function EquippedBonus(items: seq<Entity>, s: Stat): int
    reads EquipmentOf(items)
  {
    BonusSum(AllEquipped(items), s)
  }

  /** The bonus the items would give if exactly the items flagged in `flags` were equipped. */
  function BonusWith(items: seq<Entity>, flags: seq<bool>, s: Stat): int
    requires |flags| == |items|
    decreases |items|
  {
    if items == [] then 0
    else
      var n := |items| - 1;
      BonusWith(items[..n], flags[..n], s)
        + (if flags[n] && items[n].equipment != null then Bonus(items[n].equipment, s) else 0)
  }

  /** The current equipped flag of each item. */
  function EquippedFlags(items: seq<Entity>): (r: seq<bool>)
    reads EquipmentOf(items)
    ensures |r| == |items|
    ensures forall i :: 0 <= i < |items| ==>
      r[i] == (items[i].equipment != null && items[i].equipment.isEquipped)
    decreases |items|
  {
    if items == [] then []
    else
      EquipmentOfPrefix(items, |items| - 1);
      var last := items[|items| - 1];
      EquippedFlags(items[..|items| - 1]) + [last.equipment != null && last.equipment.isEquipped]
  }

  /** The stat bonus is the bonus of exactly the items whose equipment is equipped now. */
  lemma {:induction false} EquippedBonusByFlags(items: seq<Entity>, s: Stat)
    ensures EquippedBonus(items, s) == BonusWith(items, EquippedFlags(items), s)
    decreases |items|
  {
    if items != [] {
      var n := |items| - 1;
      EquipmentOfPrefix(items, n);
      EquippedBonusByFlags(items[..n], s);
      var pre := AllEquipped(items[..n]);
      var last := items[n];
      if last.equipment != null && last.equipment.isEquipped {
        assert (pre + [last.equipment])[..|pre|] == pre;
      } else {
        assert pre + [] == pre;
      }
      assert EquippedFlags(items)[..n] == EquippedFlags(items[..n]);
    }
  }

  /**
   * Flipping the equipped flag of one item changes the total bonus by exactly
   * that item's bonus: equipping adds it, unequipping removes it.
   */
  lemma {:induction false} BonusWithFlip(items: seq<Entity>, flags: seq<bool>, k: nat, v: bool, s: Stat)
    requires |flags| == |items| && k < |items|
    ensures BonusWith(items, flags[k := v], s) == BonusWith(items, flags, s)
      + (if items[k].equipment == null then 0
         else (if v then Bonus(items[k].equipment, s) else 0) - (if flags[k] then Bonus(items[k].equipment, s) else 0))
    decreases |items|
  {
    var n := |items| - 1;
    if k < n {
      assert flags[k := v][..n] == flags[..n][k := v];
      BonusWithFlip(items[..n], flags[..n], k, v, s);
    } else {
      assert flags[k := v][..n] == flags[..n];
    }
  }

  /**
   * Only Equipment objects are in the read frame of the equipment queries,
   * so updating any other object leaves them as they were.
   */
  lemma NotEquipment(o: object, items: seq<Entity>)
    requires o is Fighter || o is Entity || o is World || o is Messaging
    ensures var frame: set<object> := EquipmentOf(items); o !in frame
  {
  }

  function BaseStat(f: Fighter, s: Stat): int
    reads f`basePower, f`baseDefense, f`baseMaxHp, f`baseMaxMp
  {
    match s
    case PowerStat => f.basePower
    case DefenseStat => f.baseDefense
    case MaxHpStat => f.baseMaxHp
    case MaxMpStat => f.baseMaxMp
  }

  /** The `power`, `defense`, `max_hp` and `max_mp` properties of the Fighter of `e`. */
  function Effective(e: Entity, s: Stat): int
    requires e.fighter != null
    reads e`fighter, e`inventory, e.fighter`basePower, e.fighter`baseDefense, e.fighter`baseMaxHp, e.fighter`baseMaxMp
    reads EquipmentOf(e.inventory)
  {
    BaseStat(e.fighter, s) + EquippedBonus(e.inventory, s)
  }

  function Power(e: Entity): int
    requires e.fighter != null
    reads e`fighter, e`inventory, e.fighter`basePower, e.fighter`baseDefense, e.fighter`baseMaxHp, e.fighter`baseMaxMp
    reads EquipmentOf(e.inventory)
  {
    Effective(e, PowerStat)
  }

  function Defense(e: Entity): int
    requires e.fighter != null
    reads e`fighter, e`inventory, e.fighter`basePower, e.fighter`baseDefense, e.fighter`baseMaxHp, e.fighter`baseMaxMp
    reads EquipmentOf(e.inventory)
  {
    Effective(e, DefenseStat)
  }

  function MaxHp(e: Entity): int
    requires e.fighter != null
    reads e`fighter, e`inventory, e.fighter`basePower, e.fighter`baseDefense, e.fighter`baseMaxHp, e.fighter`baseMaxMp
    reads EquipmentOf(e.inventory)
  {
    Effective(e, MaxHpStat)
  }

  function MaxMp(e: Entity): int
    requires e.fighter != null
    reads e`fighter, e`inventory, e.fighter`basePower, e.fighter`baseDefense, e.fighter`baseMaxHp, e.fighter`baseMaxMp
    reads EquipmentOf(e.inventory)
  {
    Effective(e, MaxMpStat)
  }

  /**
   * An effective stat is the base value plus the bonuses of exactly the
   * inventory items whose equipment is equipped at the moment of the read.
   */
  lemma EffectiveIsBasePlusEquipped(e: Entity, s: Stat)
    requires e.fighter != null
    ensures Effective(e, s) == BaseStat(e.fighter, s) + BonusWith(e.inventory, EquippedFlags(e.inventory), s)
  {
    EquippedBonusByFlags(e.inventory, s);
  }

  // ---------------------------------------------------------------------
  // Movement of the component's owner
  // ---------------------------------------------------------------------

  /**
   * `int(round(a / sqrt(a*a + b*b)))` computed exactly: the quotient lies in
   * [-1, 1] and rounds away from zero exactly when 4a^2 >= a^2 + b^2; a tie
   * 3a^2 == b^2 needs a == b == 0 because sqrt 3 is irrational.
   */
  function RoundedUnit(a: int, b: int): (r: int)
    ensures -1 <= r <= 1
    ensures r != 0 <==> 3 * a * a > b * b
    ensures r * a >= 0
  {
    if 3 * a * a > b * b then (if a > 0 then 1 else -1) else 0
  }

  /** The grid step `move_towards` takes along the vector (dx, dy). */
  function StepToward(dx: int, dy: int): (int, int)
  {
    (RoundedUnit(dx, dy), RoundedUnit(dy, dx))
  }

  /** A step toward a distinct target is a non-zero king move that brings the mover strictly closer. */
  lemma StepTowardCloser(dx: int, dy: int)
    requires (dx, dy) != (0, 0)
    ensures var (sx, sy) := StepToward(dx, dy);
      -1 <= sx <= 1 && -1 <= sy <= 1 && (sx, sy) != (0, 0)
      && (dx - sx) * (dx - sx) + (dy - sy) * (dy - sy) < dx * dx + dy * dy
  {
    var (sx, sy) := StepToward(dx, dy);
    assert (dx - sx) * (dx - sx) == dx * dx - 2 * sx * dx + sx * sx;
    assert (dy - sy) * (dy - sy) == dy * dy - 2 * sy * dy + sy * sy;
    assert sx != 0 ==> sx * dx >= 1;
    assert sy != 0 ==> sy * dy >= 1;
  }

  /** The owner's position after `move(dx, dy)` against the blocking test `blocked`. */
  twostate predicate MovedBy(e: Entity, dx: int, dy: int, blocked: (int, int) -> bool)
    reads e
  {
    if blocked(old(e.x) + dx, old(e.y) + dy) then e.x == old(e.x) && e.y == old(e.y)
    else e.x == old(e.x) + dx && e.y == old(e.y) + dy
  }

  /** `Object.move`: steps by (dx, dy) unless the destination is blocked. */
  method Move(e: Entity, dx: int, dy: int, blocked: (int, int) -> bool)
    modifies e`x, e`y
    ensures MovedBy(e, dx, dy, blocked)
  {
    if !blocked(e.x + dx, e.y + dy) {
      e.x := e.x + dx;
      e.y := e.y + dy;
    }
  }

  /** `Object.move_towards(tx, ty)`: one rounded unit step toward the target. */
  method MoveTowards(e: Entity, tx: int, ty: int, blocked: (int, int) -> bool)
    requires (tx, ty) != (e.x, e.y)
    modifies e`x, e`y
    ensures MovedBy(e, StepToward(tx - old(e.x), ty - old(e.y)).0, StepToward(tx - old(e.x), ty - old(e.y)).1, blocked)
  {
    var (sx, sy) := StepToward(tx - e.x, ty - e.y);
    Move(e, sx, sy, blocked);
  }

  // ---------------------------------------------------------------------
  // Damage, experience and death
  // ---------------------------------------------------------------------

  /** What one `take_damage` call does: the new hit points, the XP granted to the player, whether the death function runs. */
  datatype DamageEffect = DamageEffect(hp: int, xpAward: int, deathCalled: bool)

  /**
   * `take_damage` as written: a kill that runs a death function returns
   * before the XP line, and a hit that does not kill grants the victim's XP.
   */
  function DamageAsWritten(hp: int, damage: int, xp: int, hasDeath: bool, isPlayer: bool): (eff: DamageEffect)
    ensures damage <= 0 ==> eff == DamageEffect(hp, 0, false)
    ensures damage > 0 ==> eff.hp == hp - damage
    ensures eff.deathCalled <==> damage > 0 && hp - damage <= 0 && hasDeath
    ensures eff.xpAward == (if damage > 0 && !isPlayer && !eff.deathCalled then xp else 0)
  {
    if damage > 0 then
      if hp - damage <= 0 && hasDeath then DamageEffect(hp - damage, 0, true)
      else DamageEffect(hp - damage, if isPlayer then 0 else xp, false)
    else DamageEffect(hp, 0, false)
  }

  /**
   * `take_damage` with the XP line inside the death check: the player gains
   * the victim's XP exactly when a hit takes a non-player to zero or below.
   */
  function DamageIntended(hp: int, damage: int, xp: int, hasDeath: bool, isPlayer: bool): (eff: DamageEffect)
    ensures damage <= 0 ==> eff == DamageEffect(hp, 0, false)
    ensures damage > 0 ==> eff.hp == hp - damage
    ensures eff.deathCalled <==> damage > 0 && hp - damage <= 0 && hasDeath
    ensures eff.xpAward == (if damage > 0 && hp - damage <= 0 && !isPlayer then xp else 0)
  {
    if damage > 0 then
      var killed := hp - damage <= 0;
      DamageEffect(hp - damage, if killed && !isPlayer then xp else 0, killed && hasDeath)
    else DamageEffect(hp, 0, false)
  }

  /** A monster that survives the hit still pays out its XP as written. */
  lemma AsWrittenPaysOnSurvival()
    ensures DamageAsWritten(10, 3, 35, true, false) == DamageEffect(7, 35, false)
    ensures DamageIntended(10, 3, 35, true, false) == DamageEffect(7, 0, false)
  {
  }

  /** A monster killed by the hit pays nothing as written, though its death message announces the XP. */
  lemma AsWrittenWithholdsOnKill()
    ensures DamageAsWritten(1, 5, 35, true, false) == DamageEffect(-4, 0, true)
    ensures DamageIntended(1, 5, 35, true, false) == DamageEffect(-4, 35, true)
  {
  }

  /**
   * The two versions agree on everything but the XP, and differ on the XP
   * for every damaging hit on a monster with a death function and non-zero XP.
   */
  lemma AsWrittenDiffersOnlyInXp(hp: int, damage: int, xp: int, hasDeath: bool, isPlayer: bool)
    ensures DamageAsWritten(hp, damage, xp, hasDeath, isPlayer).hp == DamageIntended(hp, damage, xp, hasDeath, isPlayer).hp
    ensures DamageAsWritten(hp, damage, xp, hasDeath, isPlayer).deathCalled == DamageIntended(hp, damage, xp, hasDeath, isPlayer).deathCalled
    ensures damage > 0 && hasDeath && !isPlayer && xp != 0 ==>
      DamageAsWritten(hp, damage, xp, hasDeath, isPlayer).xpAward != DamageIntended(hp, damage, xp, hasDeath, isPlayer).xpAward
  {
  }

  function MonsterDeathMessage(name: string, xp: int): string
  {
    "The " + Capitalize(name) + " is dead! You gain " + IntToString(xp) + " experience points."
  }

  /** The owner fields a death function may rewrite all kept their values. */
  twostate predicate OwnerUnchanged(e: Entity)
    reads e`glyph, e`color, e`blocks, e`fighter, e`ai, e`name
  {
    e.glyph == old(e.glyph) && e.color == old(e.color) && e.blocks == old(e.blocks)
    && e.fighter == old(e.fighter) && e.ai == old(e.ai) && e.name == old(e.name)
  }

  /** `monster_death`: the corpse transformation, logged on top of `logBefore`. */
  twostate predicate MonsterDied(m: Entity, xp: int, log: Messaging, world: World, new logBefore: seq<Line>)
    reads m`glyph, m`color, m`blocks, m`fighter, m`ai, m`name, log`messages, world`objects
  {
    log.messages == log.Then(logBefore, MonsterDeathMessage(old(m.name), xp), Orange)
    && m.glyph == '%' && m.color == DarkRed && !m.blocks
    && m.fighter == null && m.ai == null
    && m.name == "remains of " + old(m.name)
    && m in old(world.objects) && world.objects == ToFront(old(world.objects), m)
  }

  /** `player_death`: the player becomes a corpse glyph; nothing else about it changes. */
  twostate predicate PlayerDied(p: Entity, log: Messaging, world: World, new logBefore: seq<Line>)
    reads p`glyph, p`color, p`blocks, p`fighter, p`ai, p`name, log`messages, world`objects
  {
    log.messages == log.Then(logBefore, "You died!", Red)
    && p.glyph == '%' && p.color == DarkRed && p.blocks == old(p.blocks)
    && p.fighter == old(p.fighter) && p.ai == old(p.ai) && p.name == old(p.name)
    && world.objects == old(world.objects)
  }

  /** The effect of running death function `df` (or none) on `e`. */
  twostate predicate DeathOutcome(e: Entity, df: DeathFunction, xp: int, log: Messaging, world: World,
                                  new logBefore: seq<Line>)
    reads e`glyph, e`color, e`blocks, e`fighter, e`ai, e`name, log`messages, world`objects
  {
    match df
    case NoDeath => OwnerUnchanged(e) && log.messages == logBefore && world.objects == old(world.objects)
    case MonsterDeath => MonsterDied(e, xp, log, world, logBefore)
    case PlayerDeath => PlayerDied(e, log, world, logBefore)
  }

  /** What `take_damage` returns when death function `df` (or none) runs. */
  function DeathResult(df: DeathFunction): Option<string>
  {
    match df
    case NoDeath => None
    case MonsterDeath => Some("")
    case PlayerDeath => Some("dead")
  }

  /** `monster_death(monster, message)` */
  method MonsterDeathFn(m: Entity, log: Messaging, world: World) returns (r: string)
    requires m.fighter != null && m in world.objects
    modifies m`glyph, m`color, m`blocks, m`fighter, m`ai, m`name, world`objects, log`messages
    ensures MonsterDied(m, old(m.fighter.xp), log, world, old(log.messages)) && r == ""
  {
    log.Send(MonsterDeathMessage(m.name, m.fighter.xp), Orange);
    m.glyph := '%';
    m.color := DarkRed;
    m.blocks := false;
    m.fighter := null;
    m.ai := null;
    m.name := "remains of " + m.name;
    world.SendToBack(m);
    r := "";
  }

  /** `player_death(player, message)` */
  method PlayerDeathFn(p: Entity, log: Messaging) returns (r: string)
    modifies p`glyph, p`color, log`messages
    ensures log.messages == log.Then(old(log.messages), "You died!", Red)
    ensures p.glyph == '%' && p.color == DarkRed && r == "dead"
  {
    log.Send("You died!", Red);
    p.glyph := '%';
    p.color := DarkRed;
    r := "dead";
  }

  /** Runs the death function `df` of `e`, if there is one. */
  method RunDeath(e: Entity, df: DeathFunction, log: Messaging, world: World) returns (r: Option<string>)
    requires e.fighter != null
    requires df == MonsterDeath ==> e in world.objects
    modifies e`glyph, e`color, e`blocks, e`fighter, e`ai, e`name, world`objects, log`messages
    ensures DeathOutcome(e, df, old(e.fighter.xp), log, world, old(log.messages)) && r == DeathResult(df)
  {
    match df
    case NoDeath =>
      r := None;
    case MonsterDeath =>
      var s := MonsterDeathFn(e, log, world);
      r := Some(s);
    case PlayerDeath =>
      var s := PlayerDeathFn(e, log);
      r := Some(s);
  }

  /**
   * One `take_damage` call on the Fighter `f` of `e` with effect `eff`: the
   * hit points, the XP of the player's Fighter `pf`, and the death outcome.
   */
  twostate predicate Damaged(e: Entity, f: Fighter, pf: Fighter, eff: DamageEffect, log: Messaging, world: World,
                             new logBefore: seq<Line>)
    reads e`glyph, e`color, e`blocks, e`fighter, e`ai, e`name, f`hp, pf`xp, log`messages, world`objects
  {
    f.hp == eff.hp && pf.xp == old(pf.xp) + eff.xpAward
    && DeathOutcome(e, DeathRun(f, eff), old(f.xp), log, world, logBefore)
  }

  /** The death function one `take_damage` call with effect `eff` runs on the Fighter `f`. */
  function DeathRun(f: Fighter, eff: DamageEffect): DeathFunction
  {
    if eff.deathCalled then f.deathFunction else NoDeath
  }

  /** The requirements every `take_damage` call meets: both fighters exist, each entity has its own, and a monster corpse is on the object list. */
  predicate DamageReady(e: Entity, player: Entity, world: World)
    reads e, player, world, e.fighter
  {
    e.fighter != null && player.fighter != null
    && (e != player ==> e.fighter != player.fighter)
    && (e.fighter.deathFunction == MonsterDeath ==> e in world.objects)
  }

  /** `Fighter.take_damage(damage, message, player)` exactly as dynamics.py writes it. */
  method TakeDamageAsWritten(e: Entity, damage: int, log: Messaging, player: Entity, world: World) returns (r: Option<string>)
    requires DamageReady(e, player, world)
    modifies e`glyph, e`color, e`blocks, e`fighter, e`ai, e`name, world`objects, log`messages
    modifies e.fighter`hp, player.fighter`xp
    ensures var eff := DamageAsWritten(old(e.fighter.hp), damage, old(e.fighter.xp), old(e.fighter.deathFunction) != NoDeath, e == player);
      Damaged(e, old(e.fighter), old(player.fighter), eff, log, world, old(log.messages))
      && r == DeathResult(DeathRun(old(e.fighter), eff))
  {
    var f := e.fighter;
    r := None;
    if damage > 0 {
      f.hp := f.hp - damage;
      if f.hp <= 0 && f.deathFunction != NoDeath {
        r := RunDeath(e, f.deathFunction, log, world);
        return;
      }
      if e != player {
        player.fighter.xp := player.fighter.xp + f.xp;
      }
    }
  }

  /** `Fighter.take_damage` with the XP award on the kill (see README, Findings); the model's combat uses this one. */
  method TakeDamage(e: Entity, damage: int, log: Messaging, player: Entity, world: World) returns (r: Option<string>)
    requires DamageReady(e, player, world)
    modifies e`glyph, e`color, e`blocks, e`fighter, e`ai, e`name, world`objects, log`messages
    modifies e.fighter`hp, player.fighter`xp
    ensures var eff := DamageIntended(old(e.fighter.hp), damage, old(e.fighter.xp), old(e.fighter.deathFunction) != NoDeath, e == player);
      Damaged(e, old(e.fighter), old(player.fighter), eff, log, world, old(log.messages))
      && r == DeathResult(DeathRun(old(e.fighter), eff))
  {
    var f := e.fighter;
    r := None;
    if damage > 0 {
      f.hp := f.hp - damage;
      if f.hp <= 0 {
        r := RunDeath(e, f.deathFunction, log, world);
        if e != player {
          player.fighter.xp := player.fighter.xp + f.xp;
        }
      }
    }
  }

  function HitMessage(attacker: string, target: string, damage: int): string
  {
    Capitalize(attacker) + " attacks " + target + " for " + IntToString(damage) + " hit points."
  }

  function NoEffectMessage(attacker: string, target: string): string
  {
    Capitalize(attacker) + " attacks " + target + " but it has no effect!"
  }

  /**
   * The outcome of `a.fighter.attack(target, message, player)`: the damage is
   * the attacker's effective power less the target's effective defence, read
   * before the call; a positive damage is logged and dealt, anything else is
   * logged as having no effect and returns `""` with the target untouched.
   */
  twostate predicate Attacked(a: Entity, target: Entity, tf: Fighter, pf: Fighter, player: Entity,
                              log: Messaging, world: World, new r: Option<string>)
    requires old(a.fighter) != null && old(target.fighter) != null
    reads target`glyph, target`color, target`blocks, target`fighter, target`ai, target`name
    reads tf`hp, pf`xp, log`messages, world`objects
  {
    var d := old(Power(a) - Defense(target));
    if d > 0 then
      var eff := DamageIntended(old(tf.hp), d, old(tf.xp), tf.deathFunction != NoDeath, target == player);
      Damaged(target, tf, pf, eff, log, world, log.Then(old(log.messages), HitMessage(old(a.name), old(target.name), d), White))
      && r == DeathResult(DeathRun(tf, eff))
    else
      r == Some("") && log.messages == log.Then(old(log.messages), NoEffectMessage(old(a.name), old(target.name)), White)
      && OwnerUnchanged(target) && tf.hp == old(tf.hp) && pf.xp == old(pf.xp) && world.objects == old(world.objects)
  }

  /** `Fighter.attack(target, message, player)` */
  method Attack(a: Entity, target: Entity, log: Messaging, player: Entity, world: World) returns (r: Option<string>)
    requires a.fighter != null && DamageReady(target, player, world)
    modifies target`glyph, target`color, target`blocks, target`fighter, target`ai, target`name
    modifies world`objects, log`messages, target.fighter`hp, player.fighter`xp
    ensures Attacked(a, target, old(target.fighter), old(player.fighter), player, log, world, r)
  {
    var damage := Power(a) - Defense(target);
    if damage > 0 {
      log.Send(HitMessage(a.name, target.name, damage), White);
      r := TakeDamage(target, damage, log, player, world);
    } else {
      log.Send(NoEffectMessage(a.name, target.name), White);
      r := Some("");
    }
  }

  // ---------------------------------------------------------------------
  // Healing and mana
  // ---------------------------------------------------------------------

  /** `v` is min(raw, cap): the clamp of `heal` and `manabuff`. */
  predicate CappedAt(v: int, raw: int, cap: int)
  {
    v <= cap && v <= raw && (v == cap || v == raw)
  }

  /** `v` is max(raw, 0): the floor of `manadecrease`. */
  predicate FlooredAtZero(v: int, raw: int)
  {
    v >= 0 && v >= raw && (v == 0 || v == raw)
  }

  /** The colour `manadecrease` leaves: greyed out exactly when the mana ran out and the callback is `player_manaless`. */
  predicate ManalessColor(c: Color, before: Color, raw: int, callback: ManalessFunction)
  {
    c == if raw <= 0 && callback == PlayerManaless then LightestGrey else before
  }

  /** `heal(amount)`: hit points become min(hp + amount, max_hp). */
  method Heal(e: Entity, amount: int)
    requires e.fighter != null
    modifies e.fighter`hp
    ensures CappedAt(e.fighter.hp, old(e.fighter.hp) + amount, MaxHp(e))
  {
    var f := e.fighter;
    var cap := MaxHp(e);
    NotEquipment(f, e.inventory);
    f.hp := f.hp + amount;
    if f.hp > cap {
      f.hp := cap;
    }
  }

  /** `manabuff(amount)`: mana becomes min(mp + amount, max_mp). */
  method ManaBuff(e: Entity, amount: int)
    requires e.fighter != null
    modifies e.fighter`mp
    ensures CappedAt(e.fighter.mp, old(e.fighter.mp) + amount, MaxMp(e))
  {
    var f := e.fighter;
    var cap := MaxMp(e);
    NotEquipment(f, e.inventory);
    f.mp := f.mp + amount;
    if f.mp > cap {
      f.mp := cap;
    }
  }

  /**
   * `manadecrease(mana)`: mana becomes max(mp - mana, 0); when it runs out
   * the manaless callback, if set, greys out the owner.
   */
  method ManaDecrease(e: Entity, mana: int)
    requires e.fighter != null
    modifies e.fighter`mp, e`color
    ensures FlooredAtZero(e.fighter.mp, old(e.fighter.mp) - mana)
    ensures ManalessColor(e.color, old(e.color), old(e.fighter.mp) - mana, e.fighter.manalessFunction)
  {
    var f := e.fighter;
    f.mp := f.mp - mana;
    if f.mp <= 0 {
      if f.manalessFunction == PlayerManaless {
        e.color := LightestGrey;
      }
      f.mp := 0;
    }
  }

  // ---------------------------------------------------------------------
  // AI
  // ---------------------------------------------------------------------

  /** `distance_to(other) >= 2`, squared to stay in the integers. */
  predicate Far(dx: int, dy: int)
  {
    dx * dx + dy * dy >= 4
  }

  /** `BasicMonster.take_turn(message, fov_map, player)`; `fov` is the set of cells in the player's field of view. */
  method BasicMonsterTakeTurn(m: Entity, log: Messaging, fov: set<(int, int)>, player: Entity, world: World,
                              blocked: (int, int) -> bool) returns (r: Option<string>)
    requires m.fighter != null && DamageReady(player, player, world)
    modifies m`x, m`y
    modifies player`glyph, player`color, player`blocks, player`fighter, player`ai, player`name
    modifies world`objects, log`messages, player.fighter`hp, player.fighter`xp
    ensures var pf := old(player.fighter);
      var dx, dy := old(player.x - m.x), old(player.y - m.y);
      if (old(m.x), old(m.y)) !in fov then
        r == None && unchanged(m`x, m`y, player, pf, world, log)
      else if Far(dx, dy) then
        r == None && MovedBy(m, StepToward(dx, dy).0, StepToward(dx, dy).1, blocked)
        && unchanged(player, pf, world, log)
      else if old(pf.hp) > 0 then
        Attacked(m, player, pf, pf, player, log, world, r) && unchanged(m`x, m`y)
      else
        r == None && unchanged(m`x, m`y, player, pf, world, log)
  {
    r := None;
    if (m.x, m.y) in fov {
      if Far(player.x - m.x, player.y - m.y) {
        MoveTowards(m, player.x, player.y, blocked);
      } else if player.fighter.hp > 0 {
        r := Attack(m, player, log, player, world);
      }
    }
  }

  /** `BasicNPC.take_turn`: wanders one step toward the player while in view. */
  method BasicNpcTakeTurn(npc: Entity, fov: set<(int, int)>, player: Entity, blocked: (int, int) -> bool)
    requires (npc.x, npc.y) in fov ==> (npc.x, npc.y) != (player.x, player.y)
    modifies npc`x, npc`y
    ensures var dx, dy := old(player.x - npc.x), old(player.y - npc.y);
      if (old(npc.x), old(npc.y)) in fov then MovedBy(npc, StepToward(dx, dy).0, StepToward(dx, dy).1, blocked)
      else unchanged(npc`x, npc`y)
  {
    if (npc.x, npc.y) in fov {
      MoveTowards(npc, player.x, player.y, blocked);
    }
  }

  /** One `ConfusedMonster.take_turn` on the counter: the next count, or None when the old AI comes back. */
  function NextConfusion(n: int): (r: Option<int>)
    ensures r.Some? <==> n > 0
    ensures r.Some? ==> r.value == n - 1 && r.value >= 0
  {
    if n > 0 then Some(n - 1) else None
  }

  /** The counter after `k` turns of a monster confused for `n` turns; None once the old AI is back. */
  function AfterTurns(n: int, k: nat): Option<int>
    decreases k
  {
    if k == 0 then Some(n)
    else match AfterTurns(n, k - 1)
      case None => None
      case Some(c) => NextConfusion(c)
  }

  /**
   * A monster confused for N >= 0 turns stays confused, with a counter
   * N - k >= 0, for k <= N turns, and gets its old AI back on turn N + 1.
   */
  lemma {:induction false} RestoredOnTurnNPlusOne(n: nat, k: nat)
    ensures k <= n ==> AfterTurns(n, k) == Some(n - k)
    ensures k > n ==> AfterTurns(n, k) == None
    decreases k
  {
    if k > 0 {
      RestoredOnTurnNPlusOne(n, k - 1);
    }
  }

  /** `ConfusedMonster.take_turn`: (dx, dy) is the random step drawn in {-1, 0, 1}. */
  method ConfusedTakeTurn(e: Entity, log: Messaging, dx: int, dy: int, blocked: (int, int) -> bool)
    requires e.ai != null && e.ai.kind == ConfusedMonster
    requires -1 <= dx <= 1 && -1 <= dy <= 1
    modifies e`x, e`y, e`ai, e.ai`numTurns, log`messages
    ensures match NextConfusion(old(e.ai.numTurns))
      case Some(c) =>
        e.ai == old(e.ai) && e.ai.numTurns == c && MovedBy(e, dx, dy, blocked)
        && log.messages == old(log.messages)
      case None =>
        e.ai == old(e.ai.oldAi) && old(e.ai).numTurns == old(e.ai.numTurns) && unchanged(e`x, e`y)
        && log.messages == log.Then(old(log.messages), "The " + old(e.name) + " is no longer confused!", Red)
  {
    var ai := e.ai;
    if ai.numTurns > 0 {
      Move(e, dx, dy, blocked);
      ai.numTurns := ai.numTurns - 1;
    } else {
      e.ai := ai.oldAi;
      log.Send("The " + e.name + " is no longer confused!", Red);
    }
  }
}
