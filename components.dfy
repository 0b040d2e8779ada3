/**
 * The game entity (`Object`) and the components attached to it that
 * dynamics.py and statics.py operate on: Fighter, the AI objects, Item and
 * Equipment. Component methods are modelled in the modules Dynamics and
 * Statics as procedures whose receiver is the entity that owns the
 * component, which is what the components' `owner` back-reference resolves to.
 */
module Components {
  import opened Wrappers
  import opened Messages
  import opened Lists

  /** The death callback a Fighter was built with. */
  datatype DeathFunction = NoDeath | MonsterDeath | PlayerDeath

  /** The callback a Fighter runs when its mana runs out. */
  datatype ManalessFunction = NoManaless | PlayerManaless

  /** The `use_function`s of statics.py. */
  datatype Spell = HealSpell | ManaSpell | LightningSpell | FireballSpell | ConfuseSpell

  /** `Item(use_function)`: an item component carries no mutable state. */
  datatype Item = Item(useFunction: Option<Spell>)

  /** The AI classes of dynamics.py. */
  datatype AiKind = BasicMonster | BasicNpc | ConfusedMonster

  /** Values that the game reads from its constants module. */
  datatype Config = Config(
    healAmount: int,
    manabuffAmount: int,
    lightningDamage: int,
    fireballDamage: int,
    fireballRadius: int,
    confuseNumTurns: int)

  /** `Equipment`: a slot, four stat bonuses fixed at creation, and the equipped flag. */
  class Equipment {
    const slot: string
    const powerBonus: int
    const defenseBonus: int
    const maxHpBonus: int
    const maxMpBonus: int
    var isEquipped: bool

    constructor (slot: string, powerBonus: int, defenseBonus: int, maxHpBonus: int, maxMpBonus: int)
      ensures this.slot == slot && this.powerBonus == powerBonus && this.defenseBonus == defenseBonus
      ensures this.maxHpBonus == maxHpBonus && this.maxMpBonus == maxMpBonus
      ensures !isEquipped
    {
      this.slot := slot;
      this.powerBonus := powerBonus;
      this.defenseBonus := defenseBonus;
      this.maxHpBonus := maxHpBonus;
      this.maxMpBonus := maxMpBonus;
      isEquipped := false;
    }
  }

  /** `Fighter`: base stats, current hit points and mana, the XP it is worth, and its callbacks. */
  class Fighter {
    var baseMaxHp: int
    var hp: int
    var baseMaxMp: int
    var mp: int
    var baseDefense: int
    var basePower: int
    var xp: int
    const deathFunction: DeathFunction
    const manalessFunction: ManalessFunction

    /** `Fighter(hp, mp, defense, power, xp, ...)`: starts at full hit points and full mana. */
    constructor (hp: int, mp: int, defense: int, power: int, xp: int,
                 deathFunction: DeathFunction, manalessFunction: ManalessFunction)
      ensures baseMaxHp == hp && this.hp == hp && baseMaxMp == mp && this.mp == mp
      ensures baseDefense == defense && basePower == power && this.xp == xp
      ensures this.deathFunction == deathFunction && this.manalessFunction == manalessFunction
    {
      baseMaxHp, this.hp := hp, hp;
      baseMaxMp, this.mp := mp, mp;
      baseDefense, basePower := defense, power;
      this.xp := xp;
      this.deathFunction := deathFunction;
      this.manalessFunction := manalessFunction;
    }
  }

  /**
   * An AI object. `BasicMonster` and `BasicNPC` carry no state;
   * `ConfusedMonster` holds the AI it replaced and a turn counter.
   */
  class Ai {
    const kind: AiKind
    const oldAi: Ai?
    var numTurns: int

    constructor Plain(kind: AiKind)
      requires kind != ConfusedMonster
      ensures this.kind == kind && oldAi == null
    {
      this.kind := kind;
      oldAi := null;
      numTurns := 0;
    }

    /** `ConfusedMonster(old_ai, num_turns)` */
    constructor Confused(oldAi: Ai?, numTurns: int)
      ensures kind == ConfusedMonster && this.oldAi == oldAi && this.numTurns == numTurns
    {
      kind := ConfusedMonster;
      this.oldAi := oldAi;
      this.numTurns := numTurns;
    }
  }

  /**
   * A game object: the player, a monster, an item or the stairs (`glyph` is
   * its `char`). `item` and
   * `equipment` are fixed when the object is made; `fighter` and `ai` are
   * removed when a monster dies. `inventory` is the player's item list.
   */
  class Entity {
    var x: int
    var y: int
    var glyph: char
    var name: string
    var color: Color
    var blocks: bool
    var fighter: Fighter?
    var ai: Ai?
    const item: Option<Item>
    const equipment: Equipment?
    var inventory: seq<Entity>
  }

  /** The level's object list, in drawing order. */
  class World {
    var objects: seq<Entity>

    /** `Object.send_to_back`: moves `o` to index 0 and keeps the order of the others. */
    method SendToBack(o: Entity)
      requires o in objects
      modifies this`objects
      ensures objects == ToFront(old(objects), o)
      ensures objects[0] == o && multiset(objects) == multiset(old(objects))
    {
      ToFrontIsPermutation(objects, o);
      objects := ToFront(objects, o);
    }
  }
}
