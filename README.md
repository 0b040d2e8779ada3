# A verified model of a libtcod roguelike's rules engine

This project models the rules engine of a small turn-based roguelike written
in Python on top of libtcod. It covers four things:

- the dungeon map: tiles, rectangular rooms, the room and corridor carvers, and the room generator;
- combat: effective stats from equipped items, damage, experience, death, healing and mana;
- the monster AIs, including the counter-driven confusion that restores the previous AI;
- inventory and equipment, with the five spells;
- the bounded message log.

The model is written in Dafny and proves what each operation promises.

Modules, one per source file plus shared pieces:

| module | file | models |
|---|---|---|
| `Wrappers` | wrappers.dfy | `Option`, Python's `None` |
| `Text` | text.dfy | `str.capitalize()` and `str(n)`, used to build messages |
| `Lists` | lists.dfy | `list.remove(x)` and the remove-then-insert of `send_to_back` |
| `Messages` | messages.dfy | messages.py: the `Messaging` log, a class whose `Send` loop evicts and appends in place |
| `LevelMap` | levelmap.dfy | levelmap.py: `Tile`, `Rect` and the carvers, which update a 2-D `array2<Tile>` in nested loops |
| `Components` | components.dfy | the entity (`Object`) and its `Fighter`, `Equipment` and AI components as classes, and the object list `World` |
| `Dynamics` | dynamics.dfy | dynamics.py: stats, attack, damage, death, heal and mana, and the three AIs |
| `Statics` | statics.dfy | statics.py: pick-up, drop, use, equip and dequip, and the five spells |
| `Roguelike` | roguelike.dfy | roguelike.py, the single-file version of the game. Its globals become the fields of a `Game` object. It has its own older `Object` and `Fighter` without inventory or mana |

Modelling choices:

- A component's methods (`Fighter.heal`, `Item.pick_up`, ...) become procedures whose receiver is the entity that owns the component. That entity is what the component's `owner` field points to.
- The player's inventory is `player.inventory` and the level's object list is `World.objects`.
- A tile is a value (`Tile`) held in an `array2<Tile>`. `tunnel()` on `map[x][y]` becomes an assignment of `Tunnel(map[x, y])` to the same cell. No tile is shared between cells, so this loses nothing.
- Foreign or missing pieces become parameters:
  - the libtcod random draws are records with the ranges of the `random_get_int` calls as preconditions: `RoomDraw`, `Spawn`, and the step of a confused monster;
  - the field of view is a set of cells;
  - `textwrap.wrap` is a function-valued field;
  - the values of the absent `constants.py` form a `Config`;
  - `target_monster`, `closest_monster` and `target_tile` are their results;
  - the fireball's distance test is a predicate.
- `distance_to(player) >= 2` becomes the integer test `dx² + dy² >= 4`.
- The rounding in `move_towards` is computed exactly in integers (`RoundedUnit`).

Python list indexing with a negative index wraps around, and `is_blocked` would accept one. `Game.Blocked` models this with `Cell`.

`place_objects` runs before the player is moved to the centre of the first room. So `MakeMap` promises nothing about monsters avoiding the player's starting cell.

## Model

| member | source | states |
|---|---|---|
| LevelMap.NewTile | levelmap.py:3-12 | A new tile is unexplored, blocked as asked, and blocks sight exactly when it is blocked unless `block_sight` is given. |
| LevelMap.Tunnel | levelmap.py:14-16 | A tunnelled tile neither blocks nor blocks sight, and keeps its explored flag. |
| LevelMap.TunnelIdempotent | levelmap.py:14-16 | Tunnelling a tile twice is the same as tunnelling it once. |
| LevelMap.MakeRect | levelmap.py:21-25 | `Rect(x, y, w, h)` has corner (x, y) with `x2 - x1 == w` and `y2 - y1 == h`. |
| LevelMap.Center | levelmap.py:27-30 | The centre is the floor of the midpoint on each axis. It lies on the rectangle when the width and height are not negative. |
| LevelMap.IntersectSymmetric | levelmap.py:32-35 | `intersect` is symmetric. |
| LevelMap.IntersectReflexive | levelmap.py:32-35 | A rectangle with non-negative sides intersects itself. |
| LevelMap.IntersectIffSharedCell | levelmap.py:32-35 | Two well-formed rectangles intersect exactly when some cell lies on both, borders included. Rooms that share only an edge or a corner intersect. |
| LevelMap.CreateRoom | levelmap.py:38-42 | Exactly the interior cells `x1+1..x2-1 × y1+1..y2-1` are tunnelled. Border cells and all other cells keep their value. |
| LevelMap.CreateHTunnel | levelmap.py:45-47 | Exactly the cells of row y from min(x1, x2) to max(x1, x2) inclusive are tunnelled, in either argument order. Nothing else changes. |
| LevelMap.CreateVTunnel | levelmap.py:50-52 | Exactly the cells of column x from min(y1, y2) to max(y1, y2) inclusive are tunnelled. Nothing else changes. |
| Messages.Tag | messages.py:19 | Each wrapped line is paired with the colour of its message. |
| Messages.LoggedSnoc | messages.py:14-19 | Logging lines one by one gives the same buffer as logging them together. |
| Messages.LoggedKeepsNewest | messages.py:14-19 | From a buffer of at most MSG_HEIGHT lines, the result is the last MSG_HEIGHT entries of the old buffer followed by the new lines. Eviction is first in, first out, and the bound holds. |
| Messages.LastNDropsFront | messages.py:16-17 | When the buffer holds at least MSG_HEIGHT lines after its first, dropping that first line leaves the last MSG_HEIGHT lines the same. |
| Messages.NoEvictionBelowHeight | messages.py:16-17 | While the lines fit under MSG_HEIGHT, nothing is evicted. |
| Messages.OverfullNeverEvicts | messages.py:16-17 | The test is `==`, so a buffer that starts above MSG_HEIGHT is never trimmed. |
| Messages.LoggedEntriesFromInputs | messages.py:14-19 | Every logged entry comes from the old buffer or from the new lines. |
| Messages.Messaging.constructor | messages.py:7-8 | The buffer starts as the given lines, in order. |
| Messages.Messaging.Send | messages.py:10-19 | The loop leaves the buffer equal to the specification `Logged`. A buffer of at most MSG_HEIGHT lines becomes the last MSG_HEIGHT entries of the old lines plus the new ones. |
| Messages.Messaging.ToList | messages.py:21-22 | `tolist` returns the buffer unchanged. |
| Lists.RemoveFirstContents | statics.py:17 | `list.remove(x)` drops one copy of x and keeps every other element. |
| Lists.ToFrontIsPermutation | roguelike.py:144-150 | `send_to_back` puts the object first and only reorders the list. |
| Lists.ToFrontKeepsSuffix | statics.py:133-136 | Moving the element at index i to the front leaves everything after index i in place. |
| Lists.ToFrontOfNewLast | roguelike.py:558-559 | Appending a new object and then sending it to the back puts it at the front of the unchanged list. |
| Components.Equipment.constructor | statics.py:50-57 | New equipment has the given slot and bonuses and is not equipped. |
| Components.Fighter.constructor | dynamics.py:7-16 | A new fighter starts at full hit points and full mana, with the given stats and callbacks. |
| Components.Ai.Confused | dynamics.py:102-104 | A `ConfusedMonster` remembers the AI it replaces and its turn count. |
| Components.World.SendToBack | roguelike.py:144-150 | The object moves to index 0, and the others keep their order and multiplicity. |
| Dynamics.AllEquippedMembers | dynamics.py:149-154 | An equipment is listed exactly when some inventory item carries it and it is equipped. |
| Dynamics.GetAllEquipped | dynamics.py:149-154 | The loop returns the equipped equipment of the inventory, in inventory order. |
| Dynamics.EquippedFlags | dynamics.py:152 | Entry i is whether item i carries equipped equipment. |
| Dynamics.EquippedBonusByFlags | dynamics.py:18-36 | The bonus sum is the bonus of exactly the items flagged as equipped now. |
| Dynamics.BonusWithFlip | dynamics.py:18-36 | Equipping one item adds exactly its bonus, and unequipping removes exactly its bonus. |
| Dynamics.EffectiveIsBasePlusEquipped | dynamics.py:18-36 | Effective power, defence, max_hp and max_mp are the base value plus the bonuses of the items equipped at the time of the read. |
| Dynamics.RoundedUnit | roguelike.py:121-134 | The rounded unit step is in {-1, 0, 1}, has the sign of the vector component, and is non-zero exactly when 3a² > b². |
| Dynamics.StepTowardCloser | roguelike.py:121-134 | Toward a distinct target, the step is a non-zero king move that brings the mover strictly closer. |
| Dynamics.Move | roguelike.py:91-100 | The mover steps by (dx, dy) exactly when the destination is not blocked. Otherwise it stays. The `wait` reset of roguelike.py:102 is not part of this member. |
| Dynamics.MoveTowards | roguelike.py:121-134 | `move_towards` makes one rounded-unit move toward the target. |
| Dynamics.DamageAsWritten | dynamics.py:50-61 | Non-positive damage changes nothing. A hit lowers hp by exactly the damage. The death function runs exactly on a kill when it exists. XP is paid exactly when a hit on a non-player does not run a death function. |
| Dynamics.DamageIntended | dynamics.py:50-61 | The same, except that XP is paid exactly when a hit takes a non-player to zero hit points or below. |
| Dynamics.AsWrittenPaysOnSurvival | dynamics.py:60-61 | Counterexample: a monster at 10 hp hit for 3 pays its 35 XP as written, and pays nothing as intended. |
| Dynamics.AsWrittenWithholdsOnKill | dynamics.py:56-61 | Counterexample: a monster killed by the hit pays nothing as written, and pays its XP as intended. |
| Dynamics.AsWrittenDiffersOnlyInXp | dynamics.py:50-61 | The two versions agree on hit points and on the death call, and differ in XP on every damaging hit on a monster worth XP. |
| Dynamics.MonsterDeathFn | dynamics.py:124-135 | The monster becomes a non-blocking '%' corpse named "remains of …" with no fighter and no AI. It is moved to index 0 of the object list and the death message is logged. Returns "". |
| Dynamics.PlayerDeathFn | dynamics.py:137-144 | Logs "You died!" in red, turns the player into a dark red '%', and returns "dead". |
| Dynamics.RunDeath | dynamics.py:56-59 | Running a death function has exactly that function's effect and result. With no death function, nothing changes. |
| Dynamics.TakeDamageAsWritten | dynamics.py:50-61 | The hit points, the player's XP and the death outcome are those of `DamageAsWritten`. Nothing else changes. |
| Dynamics.TakeDamage | dynamics.py:50-61 | The same against `DamageIntended`. This is the corrected version the rest of the model uses. |
| Dynamics.Attack | dynamics.py:38-48 | Damage is effective power minus effective defence. A positive damage is logged and dealt through the corrected `take_damage` (`TakeDamage`), so XP follows `DamageIntended`. Otherwise "no effect" is logged, "" is returned and the target is untouched. |
| Dynamics.Heal | dynamics.py:63-67 | hp becomes min(hp + amount, max_hp). |
| Dynamics.ManaBuff | dynamics.py:69-73 | mp becomes min(mp + amount, max_mp). |
| Dynamics.ManaDecrease | dynamics.py:75-83 | mp becomes max(mp - mana, 0). The owner is greyed out exactly when mana runs out and the callback is `player_manaless`. |
| Dynamics.BasicMonsterTakeTurn | dynamics.py:87-98 | Out of view, nothing happens. In view and at distance at least 2, the monster moves one step toward the player. Closer, it attacks exactly when the player has hp > 0, and returns the attack's result. |
| Dynamics.BasicNpcTakeTurn | dynamics.py:118-122 | In view, the NPC moves one step toward the player. Otherwise it stays. |
| Dynamics.NextConfusion | dynamics.py:106-114 | A positive counter goes down by one and stays non-negative. A zero counter means the old AI comes back. |
| Dynamics.RestoredOnTurnNPlusOne | dynamics.py:100-114 | Confused for N turns, a monster has counter N - k ≥ 0 after k ≤ N turns, and gets its old AI back on turn N + 1. |
| Dynamics.ConfusedTakeTurn | dynamics.py:106-114 | While the counter is positive, the monster moves by the drawn step and the counter drops by one. At zero, the old AI is restored and the message logged. |
| Statics.EquippedInSlot | statics.py:139-143 | Returns the first inventory item with equipped equipment in the slot, or null when no item has one. |
| Statics.GetEquippedInSlot | statics.py:139-143 | The loop returns `EquippedInSlot`. |
| Statics.Dequip | statics.py:75-79 | The item ends up unequipped. The message is logged only if it was equipped, so dequip is idempotent. |
| Statics.Equip | statics.py:65-73 | The previous holder of the slot is dequipped with its message, then the item is equipped with its message. No other flag changes, and at most one item per slot stays equipped. |
| Statics.ToggleEquip | statics.py:59-63 | Equipped items are dequipped and others equipped. Slot exclusivity is kept. |
| Statics.SlotsExclusiveAppend | statics.py:16 | Adding an item whose equipment is not equipped keeps slots exclusive. |
| Statics.AutoEquip | statics.py:20-23 | The new item's equipment is equipped exactly when its slot is free. Exclusivity is kept. |
| Statics.Store | statics.py:16-18 | The item goes to the end of the inventory and leaves the object list, with the pick-up message. No equip flag changes. |
| Statics.PickUp | statics.py:11-23 | With 26 items or more, both lists are unchanged and the refusal is logged. Otherwise the item moves from the object list to the end of the inventory, and its equipment is equipped exactly when its slot was free. Exclusivity is kept. |
| Statics.StoreAndEquip | statics.py:15-23 | Below the cap, the item goes to the end of the inventory and leaves the object list, with the pick-up message. Its equipment is equipped, with its message, exactly when no inventory item holds its slot. No other flag changes, and exclusivity is kept. |
| Statics.SlotsExclusiveSublist | statics.py:31 | Any list drawn from an exclusive inventory is exclusive. |
| Statics.Release | statics.py:29-34 | The item is appended to the object list, removed once from the inventory, moved to the player's cell, and "You dropped a …" is logged. No equip flag changes, so exclusivity is kept. |
| Statics.Drop | statics.py:25-34 | The item is unequipped (logging only if it was equipped), leaves the inventory, is appended to the object list at the player's cell, and "You dropped a …" is logged. Exclusivity is kept. |
| Statics.CastHeal | statics.py:94-102 | At full health it returns "cancelled" with hp, mp and colour unchanged. Otherwise hp becomes min(hp + HEAL_AMOUNT, max_hp) and 1 mana is charged. |
| Statics.CastMana | statics.py:104-111 | At full mana it returns "cancelled". Otherwise mp becomes min(mp + MANABUFF_AMOUNT, max_mp) and no mana is charged. |
| Statics.CastLightning | statics.py:113-124 | With no monster in range it returns "cancelled" and changes nothing. Otherwise the monster takes LIGHTNING_DAMAGE through the corrected `take_damage` (`TakeDamage`, so XP follows `DamageIntended`) and 3 mana is charged. |
| Statics.CastConfuse | statics.py:81-92 | After the prompt, no target returns "cancelled". Otherwise the target's AI becomes a new ConfusedMonster that wraps the old AI for CONFUSE_NUM_TURNS turns, and 8 mana is charged. |
| Statics.NotAheadOfWalk | statics.py:133-136 | While the fireball walks the live list, an object ahead of the walk occurs nowhere before it. |
| Statics.WalkStep | statics.py:133-136 | A visit that keeps an object in place or moves it to the front keeps the list a permutation and leaves the unvisited part unchanged. |
| Statics.Burn | statics.py:134-136 | A burned fighter loses exactly the positive damage. The list is unchanged, or the victim moves to the front. |
| Statics.Visit | statics.py:133-136 | One step of the walk: the object at index i, still in place in the live list, burns exactly when it has a fighter in the radius. The walk state advances from i to i + 1. |
| Statics.WalkAll | statics.py:133-136 | The loop walks the whole original list: every fighter of it has lost the damage exactly when its object was in the radius, and the live list is a reordering of the original. |
| Statics.BurnAll | statics.py:133-136 | Every object of the original list that has a fighter in the radius loses the damage, and every other fighter is untouched. This holds even though killed monsters move to the front during the walk. The object list ends as a reordering of the original. |
| Statics.CastFireball | statics.py:126-137 | With no tile it returns "cancelled" and changes only the log. Otherwise every fighter in the radius, the player included, takes FIREBALL_DAMAGE and 5 mana is charged. The object list is only reordered. |
| Statics.Cast | statics.py:43-44 | Running the use function returns "cancelled" exactly when the spell's cancel condition held before the call. |
| Statics.Use | statics.py:36-46 | Equipment is toggled and stays. An item with no use function stays and "cannot be used" is logged. Otherwise the spell runs, and the item leaves the inventory exactly when the spell does not cancel. |
| Roguelike.OldFighter.constructor | roguelike.py:194-200 | The older fighter starts at full hit points with the given defence, power, death function and attack speed. |
| Roguelike.GameObject.constructor | roguelike.py:69-89 | A new object has the given fields and waits 0 frames. |
| Roguelike.FirstFighterAt | roguelike.py:568-573 | Returns the first object in list order with a fighter on the cell, or null when none has one. |
| Roguelike.FirstFighterAtIndex | roguelike.py:568-573 | The first match a scan from the front meets is `FirstFighterAt`. |
| Roguelike.Game.FindFighterAt | roguelike.py:568-573 | The `for object in objects` scan with its `break` returns `FirstFighterAt` of the object list. |
| Roguelike.UnstackedPermutation | roguelike.py:558-559 | Reordering the object list keeps blocking objects on distinct cells. |
| Roguelike.UnstackedAppendIdle | roguelike.py:556-558 | Adding a non-blocking object keeps blocking objects on distinct cells. |
| Roguelike.AcceptedDisjoint | roguelike.py:365-372 | No two rooms `make_map` accepts intersect, borders included. |
| Roguelike.AcceptedShape | roguelike.py:350-363 | At most one room per draw is kept, so at most MAX_ROOMS. The first draw's room is always kept, and every kept room comes from a draw. |
| Roguelike.AcceptedPrefixStep | roguelike.py:365-421 | One more draw keeps its room exactly when it misses every room kept from the earlier draws. |
| Roguelike.CarvedSnoc | roguelike.py:374-421 | Carving a room and its corridor on a map carved for the earlier rooms gives the map carved for all of them. |
| Roguelike.OpenCovers | roguelike.py:374-417 | Every interior cell of every accepted room, and every cell of every corridor, is among the opened cells. |
| Roguelike.InSomeRoomSnoc | roguelike.py:421 | Accepting a room adds exactly its interior to the cells inside some room. |
| Roguelike.FloorInRooms | roguelike.py:374-382 | On the generated map, every cell inside an accepted room is on the map and unblocked. |
| Roguelike.DrawnRoomFits | roguelike.py:354-363 | A drawn room has 0 ≤ x1, x2 ≤ MAP_WIDTH-1, 0 ≤ y1 and y2 ≤ MAP_HEIGHT-1, and its centre lies strictly inside it. |
| Roguelike.CorridorIsOpen | roguelike.py:396-417 | Every cell of the L-shaped corridor between consecutive room centres is on the map and unblocked, for either coin value. |
| Roguelike.FreshMap | roguelike.py:343-345 | The map starts as MAP_WIDTH × MAP_HEIGHT walls with nothing carved. |
| Roguelike.Overlaps | roguelike.py:365-370 | The loop with its early `break` reports exactly whether the new room intersects a kept room. |
| Roguelike.Game.constructor | roguelike.py:770-798 | The globals set at roguelike.py:770-782: the player is the only object and the log is empty. The player is a blocking white '@' named "player" at (0, 0), with no AI, no item component, PLAYER_SPEED and a wait of 0. Its fighter has 30 of 30 hp, defence 2, power 5, `player_death` and the default attack speed. Plus the flags of roguelike.py:797-798: a recompute is pending and the state is "playing". The script has no map before `make_map`, so `tiles` starts as an all-wall placeholder of the map size. |
| Roguelike.Game.IsBlocked | roguelike.py:295-308 | Returns true exactly when the tile is blocked or some blocking object stands on the cell. |
| Roguelike.Game.Move | roguelike.py:91-102 | The position changes by (dx, dy) exactly when the destination is not blocked. `wait` becomes `speed` either way. |
| Roguelike.Game.SendToBack | roguelike.py:144-150 | The object moves to index 0, and the list is otherwise reordered only. |
| Roguelike.Game.Message | roguelike.py:680-695 | The global log follows the same bounded FIFO as `Messaging`, and stays at most MSG_HEIGHT lines. |
| Roguelike.Game.RenderFov | roguelike.py:429-463 | Without a pending recompute the map is untouched. After a recompute, exactly the cells in view are marked explored and nothing else changes. No cell ever loses `explored`. |
| Roguelike.Game.OldMonsterDeath | roguelike.py:282-293 | Logs "<Name> is dead!" in orange. The monster becomes a non-blocking '%' with no fighter and no AI, is renamed "remains of …", and is moved to the front of the list. |
| Roguelike.Game.OldPlayerDeath | roguelike.py:269-280 | Logs "You died!" in red, sets the state to "dead" and turns the player into a dark red '%'. |
| Roguelike.Game.OldTakeDamage | roguelike.py:202-212 | hp drops only for positive damage, but the death function runs whenever hp ends at zero or below, even for damage ≤ 0. |
| Roguelike.Game.OldHit | roguelike.py:220-225 | A positive hit is logged with the attacker's and target's names and the damage, then dealt through the older `take_damage`. |
| Roguelike.Game.OldAttack | roguelike.py:214-230 | Damage is power minus defence. A positive damage is logged and dealt, otherwise "no effect" is logged. The attacker waits its attack speed either way. |
| Roguelike.Game.PlayerMoveOrAttack | roguelike.py:561-583 | The player attacks the first object in list order with a fighter on the target cell and does not move. With none, the player moves (unless blocked), waits its speed and sets the recompute flag, and nothing else changes. Either way, every object other than the target keeps its glyph, colour, blocking flag, fighter, AI and name, and every fighter other than the target's keeps its hp. The player keeps its fighter unless it is the target itself. |
| Roguelike.Game.PlayerAttack | roguelike.py:579-580 | `player.fighter.attack(target)`, as `OldAttack` states it. The player's position and the recompute flag do not change. Every other object keeps its glyph, colour, blocking flag, fighter, AI and name, and every other fighter keeps its hp. |
| Roguelike.Game.PlayerStep | roguelike.py:581-583 | `player.move(dx, dy)` followed by setting the recompute flag. The position changes exactly when the destination is not blocked, the player waits its speed, and the log, the object list, the game state and every object's other fields and hp are unchanged. |
| Roguelike.Game.PlaceMonster | roguelike.py:509-536 | On a blocked cell nothing is added. Otherwise a fresh monster is appended on the drawn cell: a blocking object with AI, `monster_death` and a fresh fighter, an 'o' "orc" in desaturated green with hp 10, defence 0 and power 3 when the roll is below 80, and a 'T' "troll" in darker green with 16, 1 and 4 otherwise. Blocking objects stay on distinct cells. |
| Roguelike.Game.PlaceItem | roguelike.py:544-559 | On a blocked cell nothing is added. Otherwise a fresh '!' "healing potion" in violet, an item with no fighter, no AI and no blocking, stands on the drawn cell and ends up first in the list. |
| Roguelike.Game.AppendAtBack | roguelike.py:558-559 | Appending an object that is not on the list and sending it to the back puts it first, ahead of the unchanged list. |
| Roguelike.Game.PlaceMonsterStep | roguelike.py:509-536 | One pass of the monster loop keeps draw i exactly when `is_blocked` finds its cell free at that moment. A kept draw appends its monster; any other draw adds nothing. |
| Roguelike.Game.PlaceMonsterDraws | roguelike.py:507-536 | The whole monster loop keeps exactly the draws whose cell was free before the loop and holds no monster of an earlier kept draw. A monster blocks, so a later draw on its cell is skipped. |
| Roguelike.Game.PlaceMonsters | roguelike.py:507-536 | A draw is kept exactly when `is_blocked` found its cell free before the loop (no blocked tile and no blocking object) and no earlier kept draw put a monster on that cell. The list becomes the old list followed by one fresh monster per kept draw, in draw order. Each is the orc or troll its draw describes (as for `PlaceMonster`), strictly inside the room on an open tile. The kept draws are distinct and increasing, and the other draws add nothing. Blocking objects stay on distinct cells. |
| Roguelike.MonsterDrawKept | roguelike.py:295-307 | Inside the monster loop, `is_blocked` finds draw i's cell free exactly when its tile is open, no object from before the loop blocks it, and no monster of an earlier kept draw stands on it. Keeping exactly those draws extends the loop's keep condition by one draw. |
| Roguelike.Game.PlaceItemStep | roguelike.py:544-559 | One pass of the item loop keeps draw i exactly when `is_blocked` finds its cell free at that moment. A kept draw puts its potion in front; any other draw adds nothing. |
| Roguelike.Game.PlaceItemDraws | roguelike.py:540-559 | The whole item loop keeps exactly the draws whose cell was free before the loop. Potions do not block, so earlier potions never cause a later draw to be skipped. |
| Roguelike.Game.PlaceItems | roguelike.py:540-559 | A draw is kept exactly when `is_blocked` found its cell free before the loop. The list becomes one fresh healing potion per kept draw, latest draw first, followed by the old list. Each potion stands on its draw's cell, strictly inside the room on an open tile. The kept draws are distinct and increasing, and the other draws add nothing. Blocking objects stay on distinct cells. |
| Roguelike.Game.PlaceObjects | roguelike.py:503-559 | A monster draw is kept exactly when its cell was free at the start and holds no monster of an earlier kept draw. An item draw is kept exactly when its cell was free at the start and holds none of the monsters just placed. The list becomes the potions of the kept item draws (latest first), then the old list, then the monsters of the kept monster draws (in draw order). Each new object is fresh, of the kind its draw describes, strictly inside the room and on an open tile. Blocking objects stay on distinct cells. |
| Roguelike.Game.Connect | roguelike.py:403-417 | Exactly the cells of the L-shaped corridor for the coin are tunnelled: row then column for 1, column then row for 0. |
| Roguelike.Game.AddRoom | roguelike.py:374-419 | The room and its corridor to the previous centre are carved. The player is placed at the centre of the first room. The new objects lie inside the room. |
| Roguelike.Game.JoinRoom | roguelike.py:386-419 | Once the room is carved, the player goes to its centre if it is the first room. Otherwise the corridor to the previous centre is carved and the player stays. The map is then carved for the rooms kept so far. |
| Roguelike.Game.TryRoom | roguelike.py:354-421 | A draw whose room intersects a kept room is dropped, and the object list and the player's position stay as they were. Otherwise the room is kept and carved. |
| Roguelike.Game.CarveRooms | roguelike.py:350-421 | On an all-wall map, the room loop keeps exactly `Accepted(draws)` and carves those rooms and their corridors. The player is at the centre of the first room, and the new objects lie inside kept rooms. |
| Roguelike.Game.MakeMap | roguelike.py:338-422 | The rooms kept are `Accepted(draws)`. A cell of the fresh map is floor exactly when it is inside a kept room or on a corridor between consecutive centres, and wall otherwise. The player stands at the centre of the first room, and new objects lie inside kept rooms. |

## Left out

- Rendering, windows and input: `Object.draw` and `clear`, the drawing half of `render_all`, `render_bar`, `menu`, `inventory_menu`, `get_names_under_mouse`, the key decoding of `handle_keys`, and the start-up and main loop (roguelike.py:600-837). These are I/O over libtcod.
- The field-of-view computation (`map_compute_fov`, `map_is_in_fov`) is foreign. It is a given set of visible cells.
- `random_get_int` is foreign. Each draw is an input whose range is a precondition.
- `textwrap.wrap` is a function parameter. The values of `constants.py` (HEAL_AMOUNT, CONFUSE_NUM_TURNS, damages, radii) are a `Config` parameter. constants.py is not part of this model.
- The `wait` tick-down of the main loop (roguelike.py:613-614, 835-836) is real-time pacing. Only the assignments in the roguelike.py `move` and `attack` are modelled, by `Roguelike.Game.Move` and `Roguelike.Game.OldAttack`.
- The `make_item` table (statics.py:146-162) and `player_manaless` beyond its colour carry no logic.
- The `Object` class that dynamics.py and statics.py use (with `inventory`, `equipment` and `send_to_back`) is not part of this model's sources. `Components.Entity` has the fields those files read. `send_to_back` and the position update of `move` follow the roguelike.py versions.
- Statics.AutoEquip and Statics.PickUp: statics.py:23 calls `equip(inventory)` without the `message` argument that statics.py:65 requires. The model passes the log, as the signature demands.
- Dynamics.MoveTowards and Dynamics.BasicNpcTakeTurn: the call with the mover on the target's cell is excluded by precondition. There `move_towards` divides by a distance of 0 (roguelike.py:124-133), and Python raises ZeroDivisionError. `BasicNPC.take_turn` (dynamics.py:118-122) reaches that call when an NPC in view shares the player's cell. A non-blocking NPC can walk onto the player, or the player onto an NPC without a fighter. The crash is not modelled.
- Dynamics.Attack: the damage goes through the corrected `TakeDamage`, so XP follows `DamageIntended`. `attack` (dynamics.py:45) calls the as-written `take_damage`. With the player (power 5) hitting an orc (10 hp, defence 0, 35 XP), the program pays 35 XP and the model pays none. The as-written XP rule is modelled by `TakeDamageAsWritten` and compared in "## Findings".
- Dynamics.Move: `Components.Entity` has no `wait` or `speed` field, so the `self.wait = self.speed` of roguelike.py:102 is modelled only by `Roguelike.Game.Move`.
- Statics.CastLightning and Statics.CastFireball: statics.py:123 and statics.py:136 call `take_damage` with one argument, while dynamics.py:50 takes three. The model calls the three-argument version with the game's log and player. That version is the corrected `TakeDamage` of the findings below, so the XP for a kill follows `DamageIntended`, not the source's rule. For example, a 10-hp monster worth 35 XP struck for 3 pays the player 35 XP in the source and nothing in the model.
- Statics.CastFireball: the contract does not state the log contents, the XP the player gains from the burns, or that a monster killed by the blast becomes a '%' corpse with no fighter and no AI (that effect is stated per object by `Dynamics.MonsterDeathFn`). It does state that the object list is only reordered. The colour clause is one-way, because the player may die in the blast and be recoloured before the mana charge.
- Statics.CastFireball: `obj.distance(x, y)` is not defined in the sources shown (statics.py:134). It is the predicate `inRadius`.
- Dynamics.RoundedUnit: `move_towards` uses `sqrt` and `round` on floats. The model computes the same rounding exactly in integers. `distance_to >= 2` is `dx² + dy² >= 4`.
- The roguelike.py `BasicMonster` (roguelike.py:232-251) and `Item.pick_up` (roguelike.py:253-267) are older copies of the dynamics.py and statics.py ones. They are modelled once, in `Dynamics` and `Statics`.
- The roguelike.py carvers `create_room`, `create_h_tunnel` and `create_v_tunnel` (roguelike.py:310-336) are the levelmap.py ones written for the global map. The model uses `LevelMap`'s.
- Roguelike.Game.MakeMap: the objects placed in the first room are placed before the player is moved there. So no claim is made that blocking objects stand on distinct cells after `make_map`.

## Findings

| source | as written | input that shows it | evidently intended | confidence | as-written member | corrected member |
|---|---|---|---|---|---|---|
| dynamics.py:56-61 | The XP line sits outside the `if self.hp <= 0` block, after a `return` in it. A hit that kills a monster with a death function returns before any XP is paid. A hit that leaves it alive pays the player its XP. | A monster with 10 hp and 35 XP hit for 3 survives with 7 hp and the player gains 35 XP. A monster with 1 hp hit for 5 dies and the player gains nothing, though `monster_death`'s message says "You gain 35 experience points". | The player gains the victim's XP exactly when a hit takes a non-player to 0 hp or below. | not executed; high | Dynamics.TakeDamageAsWritten, Dynamics.AsWrittenPaysOnSurvival, Dynamics.AsWrittenWithholdsOnKill | Dynamics.TakeDamage, Dynamics.DamageIntended |
