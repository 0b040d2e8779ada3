/**
 * statics.py: the Item and Equipment components (picking up, dropping,
 * using, equipping) and the five spells. Every procedure takes as its
 * receiver the entity that owns the component; the player's inventory is
 * `player.inventory` and the level's object list is `world.objects`.
 */
module Statics {
  import opened Wrappers
  import opened Messages
  import opened Text
  import opened Lists
  import opened Components
  import opened Dynamics

  /** The inventory cap of `pick_up`. */
  const InventoryCap := 26

  /** The mana each spell charges when it is not cancelled. */
  const HealCost := 1
  const LightningCost := 3
  const FireballCost := 5
  const ConfuseCost := 8

  /** The value a spell returns when it does nothing. */
  const Cancelled := "cancelled"

  // ---------------------------------------------------------------------
  // Equipment slots
  // ---------------------------------------------------------------------

  /** `it` carries equipment for `slot` that is currently equipped. */
  predicate Holds(it: Entity, slot: string)
    reads if it.equipment != null then {it.equipment} else {}
  {
    it.equipment != null && it.equipment.slot == slot && it.equipment.isEquipped
  }

  lemma EquipmentOfSuffix(items: seq<Entity>, lo: nat)
    requires lo <= |items|
    ensures EquipmentOf(items[lo..]) <= EquipmentOf(items)
  {
    forall q | q in EquipmentOf(items[lo..]) ensures q in EquipmentOf(items) {
      var i :| 0 <= i < |items| - lo && items[lo..][i].equipment == q;
      assert items[lo + i].equipment == q;
    }
  }

  /**
   * `get_equipped_in_slot(slot, inventory)` as a specification: the first
   * inventory item holding equipped equipment for `slot` (whose `equipment`
   * is what the Python function returns), or null when the slot is free.
   */
  function EquippedInSlot(slot: string, inv: seq<Entity>): (r: Entity?)
    reads EquipmentOf(inv)
    ensures r == null <==> forall i :: 0 <= i < |inv| ==> !Holds(inv[i], slot)
    ensures r != null ==> exists i :: (0 <= i < |inv| && inv[i] == r && Holds(r, slot)
      && forall j :: 0 <= j < i ==> !Holds(inv[j], slot))
    decreases |inv|
  {
    if inv == [] then null
    else if inv[0].equipment != null && Holds(inv[0], slot) then inv[0]
    else
      EquipmentOfSuffix(inv, 1);
      EquippedInSlot(slot, inv[1..])
  }

  /** `get_equipped_in_slot`: the loop over the inventory. */
  method GetEquippedInSlot(slot: string, inv: seq<Entity>) returns (r: Entity?)
    ensures r == EquippedInSlot(slot, inv)
  {
    var i := 0;
    while i < |inv|
      invariant 0 <= i <= |inv|
      invariant EquippedInSlot(slot, inv) == EquippedInSlot(slot, inv[i..])
    {
      var it := inv[i];
      if it.equipment != null && it.equipment.slot == slot && it.equipment.isEquipped {
        return it;
      }
      EquipmentOfSuffix(inv, i);
      assert inv[i..][1..] == inv[i + 1..];
      i := i + 1;
    }
    return null;
  }

  /** At most one equipment per slot is equipped among the inventory's items. */
  predicate SlotsExclusive(inv: seq<Entity>)
    reads EquipmentOf(inv)
  {
    forall i, j :: 0 <= i < |inv| && 0 <= j < |inv| && inv[i].equipment != null && inv[j].equipment != null
      && inv[i].equipment.isEquipped && inv[j].equipment.isEquipped
      && inv[i].equipment.slot == inv[j].equipment.slot
      ==> inv[i].equipment == inv[j].equipment
  }

  /** Every equipment among the items of `inv`, except `except`, kept its equipped flag. */
  twostate predicate FlagsKept(inv: seq<Entity>, except: Equipment?)
    reads EquipmentOf(inv)
  {
    forall i :: 0 <= i < |inv| && inv[i].equipment != null && inv[i].equipment != except ==>
      inv[i].equipment.isEquipped == old(inv[i].equipment.isEquipped)
  }

  function EquipMessage(name: string, slot: string): string
  {
    "Equipped " + name + " on " + slot + "."
  }

  function DequipMessage(name: string, slot: string): string
  {
    "Dequipped " + name + " from " + slot + "."
  }

  /** `Equipment.dequip(message)`: a no-op on unequipped equipment. */
  method Dequip(it: Entity, log: Messaging)
    requires it.equipment != null
    modifies it.equipment`isEquipped, log`messages
    ensures !it.equipment.isEquipped
    ensures log.messages == if old(it.equipment.isEquipped)
      then log.Then(old(log.messages), DequipMessage(it.name, it.equipment.slot), LightYellow)
      else old(log.messages)
  {
    if !it.equipment.isEquipped {
      return;
    }
    it.equipment.isEquipped := false;
    log.Send(DequipMessage(it.name, it.equipment.slot), LightYellow);
  }

  /**
   * The outcome of `equip(inventory, message)` on the equipment of `it`: the
   * previous occupant of its slot in `inv` (if any) is dequipped with a
   * message, then `it` is equipped with a message; every other flag stays.
   */
  twostate predicate EquipDone(it: Entity, inv: seq<Entity>, log: Messaging, new logBefore: seq<Line>)
    requires it.equipment != null
    reads EquipmentOf(inv), it.equipment, log`messages
  {
    var q := it.equipment;
    var occ := old(EquippedInSlot(q.slot, inv));
    var dequipped := if occ == null then logBefore
      else log.Then(logBefore, DequipMessage(old(occ.name), q.slot), LightYellow);
    q.isEquipped
    && (forall p :: p in EquipmentOf(inv) && p != q ==>
          p.isEquipped == (if occ != null && p == occ.equipment then false else old(p.isEquipped)))
    && log.messages == log.Then(dequipped, EquipMessage(old(it.name), q.slot), LightGreen)
  }

  /** `Equipment.equip(inventory, message)`; it keeps at most one equipped item per slot. */
  method Equip(it: Entity, inv: seq<Entity>, log: Messaging)
    requires it.equipment != null
    modifies EquipmentOf(inv), it.equipment, log`messages
    ensures EquipDone(it, inv, log, old(log.messages))
    ensures old(SlotsExclusive(inv)) ==> SlotsExclusive(inv)
  {
    var q := it.equipment;
    var occ := GetEquippedInSlot(q.slot, inv);
    if occ != null {
      Dequip(occ, log);
    }
    q.isEquipped := true;
    log.Send(EquipMessage(it.name, q.slot), LightGreen);
  }

  /** `Equipment.toggle_equip(player, message)` */
  method ToggleEquip(it: Entity, player: Entity, log: Messaging)
    requires it.equipment != null
    modifies EquipmentOf(player.inventory), it.equipment, log`messages
    ensures old(it.equipment.isEquipped) ==>
      !it.equipment.isEquipped && FlagsKept(player.inventory, it.equipment)
      && log.messages == log.Then(old(log.messages), DequipMessage(it.name, it.equipment.slot), LightYellow)
    ensures !old(it.equipment.isEquipped) ==> EquipDone(it, player.inventory, log, old(log.messages))
    ensures old(SlotsExclusive(player.inventory)) ==> SlotsExclusive(player.inventory)
  {
    if it.equipment.isEquipped {
      Dequip(it, log);
    } else {
      Equip(it, player.inventory, log);
    }
  }

  lemma EquipmentOfAppend(items: seq<Entity>, it: Entity)
    ensures EquipmentOf(items + [it]) == EquipmentOf(items) + (if it.equipment != null then {it.equipment} else {})
  {
    var all := items + [it];
    forall q | q in EquipmentOf(items) ensures q in EquipmentOf(all) {
      var i :| 0 <= i < |items| && items[i].equipment == q;
      assert all[i].equipment == q;
    }
    if it.equipment != null {
      assert all[|items|].equipment == it.equipment;
    }
  }

  lemma EquipmentOfRemove(items: seq<Entity>, it: Entity)
    requires it in items
    ensures EquipmentOf(RemoveFirst(items, it)) <= EquipmentOf(items)
  {
    var rest := RemoveFirst(items, it);
    RemoveFirstContents(items, it);
    forall q | q in EquipmentOf(rest) ensures q in EquipmentOf(items) {
      var i :| 0 <= i < |rest| && rest[i].equipment == q;
      assert rest[i] in multiset(items);
    }
  }

  /** Adding an item whose equipment is not equipped keeps the slots exclusive. */
  lemma SlotsExclusiveAppend(inv: seq<Entity>, it: Entity)
    requires SlotsExclusive(inv) && (it.equipment != null ==> !it.equipment.isEquipped)
    ensures SlotsExclusive(inv + [it])
  {
    var all := inv + [it];
    forall i, j | 0 <= i < |all| && 0 <= j < |all| && all[i].equipment != null && all[j].equipment != null
      && all[i].equipment.isEquipped && all[j].equipment.isEquipped
      && all[i].equipment.slot == all[j].equipment.slot
      ensures all[i].equipment == all[j].equipment
    {
      if i < |inv| && j < |inv| {
        assert all[i] == inv[i] && all[j] == inv[j];
      }
    }
  }

  // ---------------------------------------------------------------------
  // Item: pick_up, drop
  // ---------------------------------------------------------------------

  /** The tail of `pick_up`: equip the new item's equipment if its slot in `inv` is free. */
  method AutoEquip(it: Entity, inv: seq<Entity>, log: Messaging)
    requires it in inv
    modifies EquipmentOf(inv), log`messages
    ensures if it.equipment != null && old(EquippedInSlot(it.equipment.slot, inv)) == null
      then it.equipment.isEquipped
        && FlagsKept(inv, it.equipment)
        && log.messages == log.Then(old(log.messages), EquipMessage(it.name, it.equipment.slot), LightGreen)
      else log.messages == old(log.messages) && FlagsKept(inv, null)
    ensures old(SlotsExclusive(inv)) ==> SlotsExclusive(inv)
  {
    var equipment := it.equipment;
    if equipment != null {
      assert equipment in EquipmentOf(inv);
      var occupant := GetEquippedInSlot(equipment.slot, inv);
      if occupant == null {
        Equip(it, inv, log);
      }
    }
  }

  /** The middle of `pick_up`: the item moves from the object list to the end of the inventory. */
  method Store(it: Entity, player: Entity, log: Messaging, world: World)
    requires it in world.objects
    modifies player`inventory, world`objects, log`messages
    ensures player.inventory == old(player.inventory) + [it]
    ensures world.objects == RemoveFirst(old(world.objects), it)
    ensures log.messages == log.Then(old(log.messages), "You picked up a " + it.name + "!", Green)
    ensures FlagsKept(player.inventory, null)
    ensures old(SlotsExclusive(player.inventory)) && (it.equipment != null ==> !it.equipment.isEquipped) ==>
      SlotsExclusive(player.inventory)
  {
    if SlotsExclusive(player.inventory) && (it.equipment != null ==> !it.equipment.isEquipped) {
      SlotsExclusiveAppend(player.inventory, it);
    }
    player.inventory := player.inventory + [it];
    world.objects := RemoveFirst(world.objects, it);
    log.Send("You picked up a " + it.name + "!", Green);
  }

  /**
   * `pick_up` below the inventory cap: the item moves from the object list to
   * the end of the inventory and its equipment, if any, is equipped when its
   * slot is free.
   */
  method StoreAndEquip(it: Entity, player: Entity, log: Messaging, world: World)
    requires it in world.objects
    modifies player`inventory, world`objects, log`messages, EquipmentOf(player.inventory)
    modifies if it.equipment != null then {it.equipment} else {}
    ensures player.inventory == old(player.inventory) + [it]
    ensures world.objects == RemoveFirst(old(world.objects), it)
    ensures var picked := log.Then(old(log.messages), "You picked up a " + it.name + "!", Green);
      if it.equipment != null && old(EquippedInSlot(it.equipment.slot, player.inventory + [it])) == null
      then it.equipment.isEquipped && FlagsKept(player.inventory, it.equipment)
        && log.messages == log.Then(picked, EquipMessage(it.name, it.equipment.slot), LightGreen)
      else log.messages == picked && FlagsKept(player.inventory, null)
    ensures old(SlotsExclusive(player.inventory)) && (it.equipment != null ==> !old(it.equipment.isEquipped)) ==>
      SlotsExclusive(player.inventory)
  {
    EquipmentOfAppend(player.inventory, it);
    NotEquipment(player, player.inventory + [it]);
    NotEquipment(world, player.inventory + [it]);
    NotEquipment(log, player.inventory + [it]);
    ghost var free := it.equipment != null && EquippedInSlot(it.equipment.slot, player.inventory + [it]) == null;
    Store(it, player, log, world);
    assert free == (it.equipment != null && EquippedInSlot(it.equipment.slot, player.inventory) == null);
    AutoEquip(it, player.inventory, log);
  }

  /**
   * `Item.pick_up(inventory, message, objects)` on the player's inventory: a
   * full inventory (26 items or more) refuses; otherwise the item moves from
   * the object list to the end of the inventory and its equipment, if any,
   * is equipped when its slot is free.
   */
  method PickUp(it: Entity, player: Entity, log: Messaging, world: World)
    requires |player.inventory| < InventoryCap ==> it in world.objects
    modifies player`inventory, world`objects, log`messages, EquipmentOf(player.inventory)
    modifies if it.equipment != null then {it.equipment} else {}
    ensures old(|player.inventory|) >= InventoryCap ==>
      player.inventory == old(player.inventory) && world.objects == old(world.objects)
      && FlagsKept(player.inventory, null)
      && log.messages == log.Then(old(log.messages), "Your inventory is full, cannot pick up " + it.name + ".", Red)
    ensures old(|player.inventory|) < InventoryCap ==>
      player.inventory == old(player.inventory) + [it]
      && world.objects == RemoveFirst(old(world.objects), it)
      && var picked := log.Then(old(log.messages), "You picked up a " + it.name + "!", Green);
      if it.equipment != null && old(EquippedInSlot(it.equipment.slot, player.inventory + [it])) == null
      then it.equipment.isEquipped && FlagsKept(player.inventory, it.equipment)
        && log.messages == log.Then(picked, EquipMessage(it.name, it.equipment.slot), LightGreen)
      else log.messages == picked && FlagsKept(player.inventory, null)
    ensures old(SlotsExclusive(player.inventory)) && (it.equipment != null ==> !old(it.equipment.isEquipped)) ==>
      SlotsExclusive(player.inventory)
  {
    if |player.inventory| >= InventoryCap {
      log.Send("Your inventory is full, cannot pick up " + it.name + ".", Red);
    } else {
      StoreAndEquip(it, player, log, world);
    }
  }

  /** A list whose items all come from an inventory with exclusive slots has exclusive slots too. */
  lemma SlotsExclusiveSublist(inv: seq<Entity>, sub: seq<Entity>)
    requires SlotsExclusive(inv) && forall x :: x in sub ==> x in inv
    ensures SlotsExclusive(sub)
  {
    forall i, j | 0 <= i < |sub| && 0 <= j < |sub| && sub[i].equipment != null && sub[j].equipment != null
      && sub[i].equipment.isEquipped && sub[j].equipment.isEquipped
      && sub[i].equipment.slot == sub[j].equipment.slot
      ensures sub[i].equipment == sub[j].equipment
    {
      assert sub[i] in inv && sub[j] in inv;
      var i', j' :| 0 <= i' < |inv| && 0 <= j' < |inv| && inv[i'] == sub[i] && inv[j'] == sub[j];
    }
  }

  /**
   * The list updates of `drop`: the item leaves the inventory, joins the
   * object list at the player's cell, and the drop is logged. No equip flag
   * changes, so exclusive slots stay exclusive.
   */
  method Release(it: Entity, player: Entity, log: Messaging, world: World)
    requires it in player.inventory
    modifies world`objects, player`inventory, it`x, it`y, log`messages
    ensures world.objects == old(world.objects) + [it]
    ensures player.inventory == RemoveFirst(old(player.inventory), it)
    ensures it.x == old(player.x) && it.y == old(player.y)
    ensures log.messages == log.Then(old(log.messages), "You dropped a " + it.name + ".", Yellow)
    ensures old(SlotsExclusive(player.inventory)) ==> SlotsExclusive(player.inventory)
  {
    ghost var inv := player.inventory;
    NotEquipment(world, inv);
    NotEquipment(player, inv);
    NotEquipment(it, inv);
    NotEquipment(log, inv);
    world.objects := world.objects + [it];
    player.inventory := RemoveFirst(player.inventory, it);
    it.x := player.x;
    it.y := player.y;
    log.Send("You dropped a " + it.name + ".", Yellow);
    if old(SlotsExclusive(player.inventory)) {
      assert SlotsExclusive(inv);
      RemoveFirstContents(inv, it);
      forall x | x in player.inventory ensures x in inv {
        assert x in multiset(inv);
      }
      SlotsExclusiveSublist(inv, player.inventory);
    }
  }

  /**
   * `Item.drop(message, objects, player)`: equipment is dequipped first; the
   * item then moves from the inventory to the end of the object list and
   * lands on the player's cell.
   */
  method Drop(it: Entity, player: Entity, log: Messaging, world: World)
    requires it in player.inventory
    modifies if it.equipment != null then {it.equipment} else {}
    modifies world`objects, player`inventory, it`x, it`y, log`messages
    ensures world.objects == old(world.objects) + [it]
    ensures player.inventory == RemoveFirst(old(player.inventory), it)
    ensures it.x == old(player.x) && it.y == old(player.y)
    ensures it.equipment != null ==> !it.equipment.isEquipped
    ensures var dequipped := if it.equipment != null && old(it.equipment.isEquipped)
        then log.Then(old(log.messages), DequipMessage(it.name, it.equipment.slot), LightYellow)
        else old(log.messages);
      log.messages == log.Then(dequipped, "You dropped a " + it.name + ".", Yellow)
    ensures FlagsKept(old(player.inventory), it.equipment)
    ensures old(SlotsExclusive(player.inventory)) ==> SlotsExclusive(player.inventory)
  {
    if it.equipment != null {
      Dequip(it, log);
    }
    if old(SlotsExclusive(player.inventory)) {
      assert SlotsExclusive(player.inventory);
    }
    Release(it, player, log, world);
  }

  // ---------------------------------------------------------------------
  // Spells
  // ---------------------------------------------------------------------

  /** `cast_heal`: refused at full health; otherwise heals HEAL_AMOUNT and costs 1 mana. */
  method CastHeal(player: Entity, log: Messaging, cfg: Config) returns (r: Option<string>)
    requires player.fighter != null
    modifies player.fighter`hp, player.fighter`mp, player`color, log`messages
    ensures old(player.fighter.hp == MaxHp(player)) ==>
      r == Some(Cancelled)
      && log.messages == log.Then(old(log.messages), "You are already at full health.", Red)
      && unchanged(player.fighter, player)
    ensures old(player.fighter.hp != MaxHp(player)) ==>
      r == None
      && log.messages == log.Then(old(log.messages), "Your wounds start to feel better!", LightViolet)
      && CappedAt(player.fighter.hp, old(player.fighter.hp) + cfg.healAmount, old(MaxHp(player)))
      && FlooredAtZero(player.fighter.mp, old(player.fighter.mp) - HealCost)
      && ManalessColor(player.color, old(player.color), old(player.fighter.mp) - HealCost, player.fighter.manalessFunction)
  {
    if player.fighter.hp == MaxHp(player) {
      log.Send("You are already at full health.", Red);
      return Some(Cancelled);
    }
    log.Send("Your wounds start to feel better!", LightViolet);
    NotEquipment(player.fighter, player.inventory);
    NotEquipment(log, player.inventory);
    Heal(player, cfg.healAmount);
    ManaDecrease(player, HealCost);
    r := None;
  }

  /** `cast_mana`: refused at full mana; otherwise restores MANABUFF_AMOUNT at no mana cost. */
  method CastMana(player: Entity, log: Messaging, cfg: Config) returns (r: Option<string>)
    requires player.fighter != null
    modifies player.fighter`mp, log`messages
    ensures old(player.fighter.mp == MaxMp(player)) ==>
      r == Some(Cancelled)
      && log.messages == log.Then(old(log.messages), "You are already at full mana.", Red)
      && player.fighter.mp == old(player.fighter.mp)
    ensures old(player.fighter.mp != MaxMp(player)) ==>
      r == None
      && log.messages == log.Then(old(log.messages), "Your magic feels a bit refreshed!", LightViolet)
      && CappedAt(player.fighter.mp, old(player.fighter.mp) + cfg.manabuffAmount, old(MaxMp(player)))
  {
    if player.fighter.mp == MaxMp(player) {
      log.Send("You are already at full mana.", Red);
      return Some(Cancelled);
    }
    log.Send("Your magic feels a bit refreshed!", LightViolet);
    NotEquipment(player.fighter, player.inventory);
    NotEquipment(log, player.inventory);
    ManaBuff(player, cfg.manabuffAmount);
    r := None;
  }

  function LightningMessage(name: string, damage: int): string
  {
    "A lighting bolt strikes the " + name + " with a loud thunder! The damage is " + IntToString(damage) + " hit points."
  }

  /**
   * `cast_lightning`: `monster` is what `closest_monster(LIGHTNING_RANGE)`
   * returned. No monster cancels the spell; otherwise the monster takes
   * LIGHTNING_DAMAGE and the spell costs 3 mana.
   */
  method CastLightning(monster: Entity?, player: Entity, log: Messaging, world: World, cfg: Config)
    returns (r: Option<string>)
    requires player.fighter != null
    requires monster != null ==> monster != player && DamageReady(monster, player, world)
    modifies (if monster != null then {monster} else {})`glyph, (if monster != null then {monster} else {})`color
    modifies (if monster != null then {monster} else {})`blocks, (if monster != null then {monster} else {})`fighter
    modifies (if monster != null then {monster} else {})`ai, (if monster != null then {monster} else {})`name
    modifies (if monster != null then {monster.fighter} else {})`hp
    modifies world`objects, log`messages, player.fighter`xp, player.fighter`mp, player`color
    ensures monster == null ==>
      r == Some(Cancelled)
      && log.messages == log.Then(old(log.messages), "No enemy is close enough to strike.", Red)
      && unchanged(player.fighter, player, world)
    ensures monster != null ==>
      var mf, pf := old(monster.fighter), old(player.fighter);
      var strike := log.Then(old(log.messages), LightningMessage(old(monster.name), cfg.lightningDamage), LightBlue);
      var eff := DamageIntended(old(mf.hp), cfg.lightningDamage, old(mf.xp), mf.deathFunction != NoDeath, false);
      r == None
      && Damaged(monster, mf, pf, eff, log, world, strike)
      && FlooredAtZero(pf.mp, old(pf.mp) - LightningCost)
      && ManalessColor(player.color, old(player.color), old(pf.mp) - LightningCost, pf.manalessFunction)
  {
    if monster == null {
      log.Send("No enemy is close enough to strike.", Red);
      return Some(Cancelled);
    }
    log.Send(LightningMessage(monster.name, cfg.lightningDamage), LightBlue);
    var _ := TakeDamage(monster, cfg.lightningDamage, log, player, world);
    ManaDecrease(player, LightningCost);
    r := None;
  }

  const ConfusePrompt := "Left-click an enemy to confuse it, or right-click to cancel."

  function ConfuseMessage(name: string): string
  {
    "The eyes of the " + name + " look vacant, as he starts to stumble around!"
  }

  /**
   * `cast_confuse`: `monster` is what `target_monster(CONFUSE_RANGE)`
   * returned. After the prompt, no monster cancels the spell; otherwise its
   * AI is wrapped in a new ConfusedMonster for CONFUSE_NUM_TURNS turns and
   * the spell costs 8 mana.
   */
  method CastConfuse(monster: Entity?, player: Entity, log: Messaging, cfg: Config) returns (r: Option<string>)
    requires player.fighter != null
    modifies (if monster != null then {monster} else {})`ai
    modifies player.fighter`mp, player`color, log`messages
    ensures var prompt := log.Then(old(log.messages), ConfusePrompt, LightCyan);
      if monster == null then
        r == Some(Cancelled) && log.messages == prompt && unchanged(player.fighter, player)
      else
        var pf := old(player.fighter);
        r == None
        && fresh(monster.ai) && monster.ai.kind == ConfusedMonster
        && monster.ai.oldAi == old(monster.ai) && monster.ai.numTurns == cfg.confuseNumTurns
        && log.messages == log.Then(prompt, ConfuseMessage(old(monster.name)), LightGreen)
        && FlooredAtZero(pf.mp, old(pf.mp) - ConfuseCost)
        && ManalessColor(player.color, old(player.color), old(pf.mp) - ConfuseCost, pf.manalessFunction)
  {
    log.Send(ConfusePrompt, LightCyan);
    if monster == null {
      return Some(Cancelled);
    }
    var confused := new Ai.Confused(monster.ai, cfg.confuseNumTurns);
    monster.ai := confused;
    log.Send(ConfuseMessage(monster.name), LightGreen);
    ManaDecrease(player, ConfuseCost);
    r := None;
  }

  const FireballPrompt := "Left-click a target tile for the fireball, or right-click to cancel."

  function ExplodeMessage(radius: int): string
  {
    "The fireball explodes, burning everything within " + IntToString(radius) + " tiles!"
  }

  function BurnMessage(name: string, damage: int): string
  {
    "The " + name + " gets burned for " + IntToString(damage) + " hit points."
  }

  function Members(objs: seq<Entity>): set<Entity>
  {
    set o | o in objs
  }

  function FightersOf(objs: seq<Entity>): set<Fighter>
    reads Members(objs)
  {
    set o | o in objs && o.fighter != null :: o.fighter
  }

  /** The object list holds every object once, and no two objects share a Fighter. */
  predicate Distinct(objs: seq<Entity>)
    reads Members(objs)
  {
    forall i, j :: 0 <= i < j < |objs| ==>
      objs[i] != objs[j] && (objs[i].fighter != null ==> objs[i].fighter != objs[j].fighter)
  }


  /** Whether the fireball aimed at `tile` burns a fighter standing at (x, y). */
  predicate Burns(tile: Option<(int, int)>, inRadius: (int, int, int, int) -> bool, x: int, y: int)
  {
    tile.Some? && inRadius(x, y, tile.value.0, tile.value.1)
  }

  /**
   * Walking a list without duplicates by index while each visited element
   * either stays or moves to the front: an element still ahead of the walk
   * occurs nowhere before it.
   */
  lemma NotAheadOfWalk(live: seq<Entity>, objs: seq<Entity>, i: nat)
    requires i < |objs| && |live| == |objs|
    requires multiset(live) == multiset(objs) && live[i..] == objs[i..]
    requires forall a, b :: 0 <= a < b < |objs| ==> objs[a] != objs[b]
    ensures live[i] !in live[..i]
  {
    assert live == live[..i] + live[i..];
    assert objs == objs[..i] + objs[i..];
    assert multiset(live) == multiset(live[..i]) + multiset(live[i..]);
    assert multiset(objs) == multiset(objs[..i]) + multiset(objs[i..]);
    assert live[i] == objs[i] by {
      assert live[i..][0] == objs[i..][0];
    }
    assert forall a :: 0 <= a < i ==> objs[..i][a] != objs[i];
    assert objs[i] !in multiset(objs[..i]);
    assert multiset(live[i..]) == multiset(objs[i..]);
    assert multiset(live[..i]) == multiset(live) - multiset(live[i..]);
    assert multiset(objs[..i]) == multiset(objs) - multiset(objs[i..]);
  }

  /** One visit of the walk: the list stays a permutation and keeps its unvisited part. */
  lemma WalkStep(before: seq<Entity>, after: seq<Entity>, objs: seq<Entity>, i: nat)
    requires i < |objs| && |before| == |objs|
    requires multiset(before) == multiset(objs) && before[i..] == objs[i..]
    requires forall a, b :: 0 <= a < b < |objs| ==> objs[a] != objs[b]
    requires after == before || (before[i] in before && after == ToFront(before, before[i]))
    ensures |after| == |objs| && multiset(after) == multiset(objs) && after[i + 1..] == objs[i + 1..]
  {
    assert before[i + 1..] == before[i..][1..];
    if after != before {
      NotAheadOfWalk(before, objs, i);
      ToFrontKeepsSuffix(before, i);
      ToFrontIsPermutation(before, before[i]);
    }
  }

  /** The body of the fireball loop for one object in range that has a Fighter. */
  method Burn(obj: Entity, damage: int, player: Entity, log: Messaging, world: World)
    requires DamageReady(obj, player, world) && player.fighter.deathFunction != MonsterDeath
    modifies obj`glyph, obj`color, obj`blocks, obj`fighter, obj`ai, obj`name, world`objects, log`messages
    modifies obj.fighter`hp, player.fighter`xp
    ensures old(obj.fighter).hp == old(obj.fighter.hp) - if damage > 0 then damage else 0
    ensures world.objects == old(world.objects)
      || (obj in old(world.objects) && world.objects == ToFront(old(world.objects), obj))
    ensures player.fighter == old(player.fighter)
  {
    log.Send(BurnMessage(obj.name, damage), Orange);
    var _ := TakeDamage(obj, damage, log, player, world);
  }

  /** The Fighter of each object of `objs`, in order. */
  function FighterList(objs: seq<Entity>): (fs: seq<Fighter?>)
    reads Members(objs)
    ensures |fs| == |objs| && forall k :: 0 <= k < |objs| ==> fs[k] == objs[k].fighter
  {
    if objs == [] then [] else [objs[0].fighter] + FighterList(objs[1..])
  }

  /** The hit points of each Fighter of `fs`, and 0 where there is none. */
  function HpList(fs: seq<Fighter?>): (hps: seq<int>)
    reads set f | f in fs && f != null
    ensures |hps| == |fs| && forall k :: 0 <= k < |fs| && fs[k] != null ==> hps[k] == fs[k].hp
  {
    if fs == [] then [] else [if fs[0] != null then fs[0].hp else 0] + HpList(fs[1..])
  }

  /**
   * The fireball walk has visited the indices below i of the original list
   * `objs`, whose Fighters were `fs` with hit points `hp0`: exactly the
   * visited ones within the radius have lost `damage`.
   */
  predicate Scorched(objs: seq<Entity>, fs: seq<Fighter?>, hp0: seq<int>, i: int,
                     tx: int, ty: int, inRadius: (int, int, int, int) -> bool, damage: int)
    reads Members(objs), set f | f in fs && f != null
  {
    |fs| == |objs| && |hp0| == |objs|
    && forall k :: 0 <= k < |objs| && fs[k] != null ==>
      fs[k].hp == hp0[k] - if k < i && inRadius(objs[k].x, objs[k].y, tx, ty) && damage > 0 then damage else 0
  }

  /**
   * The state of the fireball walk before index i of the original list
   * `objs`: the live list is a reordering of `objs` that still holds the
   * unvisited objects in place, with their Fighters `fs`, and the hit points
   * are as `Scorched` says.
   */
  predicate WalkAt(live: seq<Entity>, objs: seq<Entity>, fs: seq<Fighter?>, hp0: seq<int>, i: int,
                   tx: int, ty: int, inRadius: (int, int, int, int) -> bool, damage: int)
    reads Members(objs), set f | f in fs && f != null
  {
    0 <= i <= |objs| && |live| == |objs| && multiset(live) == multiset(objs) && live[i..] == objs[i..]
    && (forall k :: i <= k < |objs| && k < |fs| ==> objs[k].fighter == fs[k])
    && Scorched(objs, fs, hp0, i, tx, ty, inRadius, damage)
  }

  /**
   * One step of the fireball walk over the original list `objs`: the object
   * at index i, still at index i of the live list, burns when it has a
   * Fighter within the radius.
   */
  method Visit(i: nat, ghost objs: seq<Entity>, ghost fs: seq<Fighter?>, ghost hp0: seq<int>,
               tx: int, ty: int, inRadius: (int, int, int, int) -> bool,
               damage: int, player: Entity, log: Messaging, world: World)
    requires i < |objs| && WalkAt(world.objects, objs, fs, hp0, i, tx, ty, inRadius, damage)
    requires forall a, b :: 0 <= a < b < |objs| ==> objs[a] != objs[b]
    requires forall a, b :: 0 <= a < b < |fs| && fs[a] != null ==> fs[a] != fs[b]
    requires player.fighter != null && player.fighter.deathFunction != MonsterDeath
    requires objs[i] != player ==> fs[i] != player.fighter
    modifies {objs[i]}`glyph, {objs[i]}`color, {objs[i]}`blocks, {objs[i]}`fighter, {objs[i]}`ai, {objs[i]}`name
    modifies world`objects, log`messages, player.fighter`xp
    modifies (if fs[i] != null then {fs[i]} else {})`hp
    ensures WalkAt(world.objects, objs, fs, hp0, i + 1, tx, ty, inRadius, damage)
    ensures player.fighter == old(player.fighter)
  {
    var obj := world.objects[i];
    assert obj == objs[i] by {
      assert world.objects[i..][0] == objs[i..][0];
    }
    ghost var before := world.objects;
    if inRadius(obj.x, obj.y, tx, ty) && obj.fighter != null {
      Burn(obj, damage, player, log, world);
    }
    WalkStep(before, world.objects, objs, i);
  }

  /**
   * The loop of `cast_fireball` over the object list, stated against the
   * original list `objs`, its Fighters `fs` and their hit points `hp0`.
   */
  method WalkAll(ghost objs: seq<Entity>, ghost fs: seq<Fighter?>, ghost hp0: seq<int>,
                 tx: int, ty: int, inRadius: (int, int, int, int) -> bool, damage: int,
                 player: Entity, log: Messaging, world: World)
    requires WalkAt(world.objects, objs, fs, hp0, 0, tx, ty, inRadius, damage)
    requires forall a, b :: 0 <= a < b < |objs| ==> objs[a] != objs[b]
    requires forall a, b :: 0 <= a < b < |fs| && fs[a] != null ==> fs[a] != fs[b]
    requires player.fighter != null && player.fighter.deathFunction != MonsterDeath
    requires forall k :: 0 <= k < |objs| && objs[k] != player ==> fs[k] != player.fighter
    modifies world`objects, log`messages, player.fighter`xp
    modifies Members(objs)`glyph, Members(objs)`color, Members(objs)`blocks
    modifies Members(objs)`fighter, Members(objs)`ai, Members(objs)`name
    modifies (set f | f in fs && f != null)`hp
    ensures WalkAt(world.objects, objs, fs, hp0, |objs|, tx, ty, inRadius, damage)
    ensures player.fighter == old(player.fighter)
  {
    var i := 0;
    while i < |world.objects|
      invariant WalkAt(world.objects, objs, fs, hp0, i, tx, ty, inRadius, damage)
      invariant player.fighter == old(player.fighter)
      decreases |objs| - i
    {
      Visit(i, objs, fs, hp0, tx, ty, inRadius, damage, player, log, world);
      i := i + 1;
    }
  }

  /**
   * `cast_fireball`'s walk over the object list: every object that has
   * a Fighter and stands within the radius of (tx, ty) takes `damage`.
   */
  method BurnAll(tx: int, ty: int, inRadius: (int, int, int, int) -> bool, damage: int,
                 player: Entity, log: Messaging, world: World)
    requires player.fighter != null && player.fighter.deathFunction != MonsterDeath
    requires Distinct(world.objects)
    requires forall o :: o in world.objects && o != player ==> o.fighter != player.fighter
    modifies world`objects, log`messages, player.fighter`xp
    modifies Members(world.objects)`glyph, Members(world.objects)`color, Members(world.objects)`blocks
    modifies Members(world.objects)`fighter, Members(world.objects)`ai, Members(world.objects)`name
    modifies FightersOf(world.objects)`hp
    ensures forall k :: 0 <= k < |old(world.objects)| && old(world.objects[k].fighter) != null ==>
      var f := old(world.objects[k].fighter);
      f.hp == old(f.hp) - if inRadius(old(world.objects[k].x), old(world.objects[k].y), tx, ty) && damage > 0
        then damage else 0
    ensures multiset(world.objects) == multiset(old(world.objects))
    ensures player.fighter == old(player.fighter)
  {
    ghost var objs := world.objects;
    ghost var fs := FighterList(objs);
    ghost var hp0 := HpList(fs);
    WalkAll(objs, fs, hp0, tx, ty, inRadius, damage, player, log, world);
  }

  /**
   * `cast_fireball`: `tile` is what `target_tile()` returned and
   * `inRadius(x, y, tx, ty)` stands for `distance((x, y), (tx, ty)) <=
   * FIREBALL_RADIUS`. After the prompt, no tile cancels the spell; otherwise
   * every object on the list that has a Fighter and stands within the
   * radius, the player included, takes FIREBALL_DAMAGE, and the spell costs
   * 5 mana. A monster killed by the blast moves to the front of the list
   * while the list is walked; the walk still visits every object once.
   */
  method CastFireball(tile: Option<(int, int)>, inRadius: (int, int, int, int) -> bool,
                      player: Entity, log: Messaging, world: World, cfg: Config) returns (r: Option<string>)
    requires player.fighter != null && player.fighter.deathFunction != MonsterDeath
    requires Distinct(world.objects)
    requires forall o :: o in world.objects && o != player ==> o.fighter != player.fighter
    modifies world`objects, log`messages, player`color, player.fighter`xp, player.fighter`mp
    modifies Members(world.objects)`glyph, Members(world.objects)`color, Members(world.objects)`blocks
    modifies Members(world.objects)`fighter, Members(world.objects)`ai, Members(world.objects)`name
    modifies FightersOf(world.objects)`hp
    ensures r == if tile.None? then Some(Cancelled) else None
    ensures forall k :: 0 <= k < |old(world.objects)| && old(world.objects[k].fighter) != null ==>
      var f := old(world.objects[k].fighter);
      f.hp == old(f.hp) - if Burns(tile, inRadius, old(world.objects[k].x), old(world.objects[k].y)) && cfg.fireballDamage > 0
        then cfg.fireballDamage else 0
    ensures multiset(world.objects) == multiset(old(world.objects))
    ensures tile.None? ==>
      log.messages == log.Then(old(log.messages), FireballPrompt, LightCyan)
      && unchanged(old(player.fighter), player, world)
    ensures tile.Some? ==>
      var pf := old(player.fighter);
      player.fighter == pf
      && FlooredAtZero(pf.mp, old(pf.mp) - FireballCost)
      && (old(pf.mp) - FireballCost <= 0 && pf.manalessFunction == PlayerManaless ==> player.color == LightestGrey)
  {
    log.Send(FireballPrompt, LightCyan);
    if tile.None? {
      return Some(Cancelled);
    }
    var (tx, ty) := tile.value;
    log.Send(ExplodeMessage(cfg.fireballRadius), Orange);
    BurnAll(tx, ty, inRadius, cfg.fireballDamage, player, log, world);
    ManaDecrease(player, FireballCost);
    r := None;
  }

  // ---------------------------------------------------------------------
  // Item.use
  // ---------------------------------------------------------------------

  /**
   * When a spell returns `'cancelled'`, judged on the state before the call:
   * `monster` is what `target_monster` returns, `closest` what
   * `closest_monster` returns and `tile` what `target_tile` returns.
   */
  predicate Cancels(spell: Spell, player: Entity, monster: Entity?, closest: Entity?, tile: Option<(int, int)>)
    requires player.fighter != null
    reads player`fighter, player`inventory, player.fighter, EquipmentOf(player.inventory)
  {
    match spell
    case HealSpell => player.fighter.hp == MaxHp(player)
    case ManaSpell => player.fighter.mp == MaxMp(player)
    case LightningSpell => closest == null
    case FireballSpell => tile.None?
    case ConfuseSpell => monster == null
  }

  /** What each spell demands of the state it runs in. */
  predicate SpellReady(spell: Spell, player: Entity, closest: Entity?, world: World)
    reads player, player.fighter, world, Members(world.objects)
    reads if closest != null then {closest} else {}
    reads if closest != null && closest.fighter != null then {closest.fighter} else {}
  {
    player.fighter != null
    && match spell
      case LightningSpell => closest != null ==> closest != player && DamageReady(closest, player, world)
      case FireballSpell =>
        player.fighter.deathFunction != MonsterDeath && Distinct(world.objects)
        && forall o :: o in world.objects && o != player ==> o.fighter != player.fighter
      case _ => true
  }

  function Opt(e: Entity?): set<Entity>
  {
    if e != null then {e} else {}
  }

  /** The `use_function()` call of `Item.use`: runs `spell`, which cancels exactly when `Cancels` held. */
  method Cast(spell: Spell, player: Entity, log: Messaging, world: World, cfg: Config,
              monster: Entity?, closest: Entity?, tile: Option<(int, int)>, inRadius: (int, int, int, int) -> bool)
    returns (r: Option<string>)
    requires SpellReady(spell, player, closest, world)
    modifies player`color, log`messages, world`objects
    modifies {player.fighter}`hp, {player.fighter}`mp, {player.fighter}`xp
    modifies Opt(monster)`ai
    modifies Opt(closest)`glyph, Opt(closest)`color, Opt(closest)`blocks
    modifies Opt(closest)`fighter, Opt(closest)`ai, Opt(closest)`name
    modifies (if closest != null && closest.fighter != null then {closest.fighter} else {})`hp
    modifies Members(world.objects)`glyph, Members(world.objects)`color, Members(world.objects)`blocks
    modifies Members(world.objects)`fighter, Members(world.objects)`ai, Members(world.objects)`name
    modifies FightersOf(world.objects)`hp
    ensures r == Some(Cancelled) <==> old(Cancels(spell, player, monster, closest, tile))
  {
    match spell {
      case HealSpell => r := CastHeal(player, log, cfg);
      case ManaSpell => r := CastMana(player, log, cfg);
      case LightningSpell => r := CastLightning(closest, player, log, world, cfg);
      case FireballSpell => r := CastFireball(tile, inRadius, player, log, world, cfg);
      case ConfuseSpell => r := CastConfuse(monster, player, log, cfg);
    }
  }

  /**
   * `Item.use(...)`: equipment is toggled and stays in the inventory; an item
   * without a use function only reports that; otherwise the spell runs and
   * the item is consumed unless the spell returned `'cancelled'`.
   */
  method Use(it: Entity, player: Entity, log: Messaging, world: World, cfg: Config,
             monster: Entity?, closest: Entity?, tile: Option<(int, int)>, inRadius: (int, int, int, int) -> bool)
    requires it.item.Some?
    requires it.equipment == null && it.item.value.useFunction.Some? ==>
      it in player.inventory && SpellReady(it.item.value.useFunction.value, player, closest, world)
    modifies player`inventory, player`color, log`messages, world`objects
    modifies EquipmentOf(player.inventory), if it.equipment != null then {it.equipment} else {}
    modifies (if player.fighter != null then {player.fighter} else {})`hp
    modifies (if player.fighter != null then {player.fighter} else {})`mp
    modifies (if player.fighter != null then {player.fighter} else {})`xp
    modifies Opt(monster)`ai
    modifies Opt(closest)`glyph, Opt(closest)`color, Opt(closest)`blocks
    modifies Opt(closest)`fighter, Opt(closest)`ai, Opt(closest)`name
    modifies (if closest != null && closest.fighter != null then {closest.fighter} else {})`hp
    modifies Members(world.objects)`glyph, Members(world.objects)`color, Members(world.objects)`blocks
    modifies Members(world.objects)`fighter, Members(world.objects)`ai, Members(world.objects)`name
    modifies FightersOf(world.objects)`hp
    ensures it.equipment != null ==>
      player.inventory == old(player.inventory) && it.equipment.isEquipped == !old(it.equipment.isEquipped)
    ensures it.equipment == null && it.item.value.useFunction.None? ==>
      player.inventory == old(player.inventory)
      && log.messages == log.Then(old(log.messages), "The " + old(it.name) + " cannot be used.", White)
    ensures it.equipment == null && it.item.value.useFunction.Some? ==>
      player.inventory == if old(Cancels(it.item.value.useFunction.value, player, monster, closest, tile))
        then old(player.inventory) else RemoveFirst(old(player.inventory), it)
  {
    if it.equipment != null {
      ToggleEquip(it, player, log);
      return;
    }
    match it.item.value.useFunction
    case None =>
      log.Send("The " + it.name + " cannot be used.", White);
    case Some(spell) =>
      var r := Cast(spell, player, log, world, cfg, monster, closest, tile, inRadius);
      if r != Some(Cancelled) {
        player.inventory := RemoveFirst(player.inventory, it);
      }
  }
}
