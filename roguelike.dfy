/**
 * roguelike.py: the single-file version of the game. Its globals (`map`,
 * `objects`, `player`, `game_msgs`, `fov_recompute`, `game_state`) are the
 * fields of one `Game` object; its `Object` and `Fighter` classes are the
 * older ones without inventory, mana or experience.
 */
module Roguelike {
  import opened Wrappers
  import opened Messages
  import opened Text
  import opened Lists
  import opened LevelMap
  import opened Components
  import opened Dynamics

  const MapWidth := 80
  const MapHeight := 43
  const RoomMaxSize := 10
  const RoomMinSize := 6
  const MaxRooms := 30
  const MaxRoomMonsters := 3
  const MaxRoomItems := 2
  const PlayerSpeed := 2
  const DefaultSpeed := 8
  const DefaultAttackSpeed := 20
  /** MSG_HEIGHT = PANEL_HEIGHT - 1 */
  const MsgHeight: Height := 6

  /** The older `Fighter`: hit points, defence, power, death callback and attack cooldown. */
  class OldFighter {
    const maxHp: int
    var hp: int
    const defense: int
    const power: int
    const deathFunction: DeathFunction
    const attackSpeed: int

    constructor (hp: int, defense: int, power: int, deathFunction: DeathFunction, attackSpeed: int)
      ensures maxHp == hp && this.hp == hp && this.defense == defense && this.power == power
      ensures this.deathFunction == deathFunction && this.attackSpeed == attackSpeed
    {
      maxHp, this.hp := hp, hp;
      this.defense, this.power := defense, power;
      this.deathFunction, this.attackSpeed := deathFunction, attackSpeed;
    }
  }

  /**
   * The older `Object`: position, look, blocking flag, the frames to wait
   * after an action (`speed` for a move), and optional components. The only
   * AI of this file is `BasicMonster`, so the AI component is a flag.
   */
  class GameObject {
    var x: int
    var y: int
    var glyph: char
    var name: string
    var color: Color
    var blocks: bool
    const speed: int
    var wait: int
    var fighter: OldFighter?
    var hasAi: bool
    const isItem: bool

    constructor (x: int, y: int, glyph: char, name: string, color: Color, blocks: bool,
                 fighter: OldFighter?, hasAi: bool, speed: int, isItem: bool)
      ensures this.x == x && this.y == y && this.glyph == glyph && this.name == name && this.color == color
      ensures this.blocks == blocks && this.fighter == fighter && this.hasAi == hasAi
      ensures this.speed == speed && wait == 0 && this.isItem == isItem
    {
      this.x, this.y := x, y;
      this.glyph, this.name, this.color := glyph, name, color;
      this.blocks, this.fighter, this.hasAi := blocks, fighter, hasAi;
      this.speed, wait, this.isItem := speed, 0, isItem;
    }
  }

  /** Python list indexing: a negative index counts from the end. */
  function Cell(i: int, n: int): int
  {
    if i < 0 then i + n else i
  }

  /** Some object of `objs` that blocks stands at (x, y). */
  predicate Occupied(objs: seq<GameObject>, x: int, y: int)
    reads set o | o in objs
  {
    exists i :: 0 <= i < |objs| && objs[i].blocks && objs[i].x == x && objs[i].y == y
  }

  /** The first object of `objs` with a Fighter standing at (x, y), or null. */
  function FirstFighterAt(objs: seq<GameObject>, x: int, y: int): (r: GameObject?)
    reads set o | o in objs
    ensures r == null <==> forall i :: 0 <= i < |objs| ==> !(objs[i].fighter != null && objs[i].x == x && objs[i].y == y)
    ensures r != null ==> exists i :: (0 <= i < |objs| && objs[i] == r && r.fighter != null && r.x == x && r.y == y
      && forall j :: 0 <= j < i ==> !(objs[j].fighter != null && objs[j].x == x && objs[j].y == y))
    decreases |objs|
  {
    if objs == [] then null
    else if objs[0].fighter != null && objs[0].x == x && objs[0].y == y then objs[0]
    else FirstFighterAt(objs[1..], x, y)
  }

  /** The objects of a list, as a set (the frame of what a turn may change). */
  function ObjectsOf(objs: seq<GameObject>): set<GameObject>
  {
    set o | o in objs
  }

  /** The Fighter components of the objects of a list. */
  function FightersOf(objs: seq<GameObject>): set<OldFighter>
    reads ObjectsOf(objs)
  {
    set o | o in objs && o.fighter != null :: o.fighter
  }

  /** The first match found by a scan from the start is what FirstFighterAt returns. */
  lemma {:induction false} FirstFighterAtIndex(objs: seq<GameObject>, x: int, y: int, i: nat)
    requires i < |objs| && objs[i].fighter != null && objs[i].x == x && objs[i].y == y
    requires forall k :: 0 <= k < i ==> !(objs[k].fighter != null && objs[k].x == x && objs[k].y == y)
    ensures FirstFighterAt(objs, x, y) == objs[i]
    decreases i
  {
    if i > 0 {
      FirstFighterAtIndex(objs[1..], x, y, i - 1);
    }
  }

  /** One monster draw of `place_objects`: the spot and the 0..100 roll choosing orc or troll. */
  datatype Spawn = Spawn(x: int, y: int, roll: int)

  /**
   * `o` is the monster that `place_objects` makes for the draw `s`: a
   * blocking object with a `BasicMonster` AI and `monster_death` on the
   * drawn cell, an orc when the roll is below 80 and a troll otherwise.
   */
  predicate Spawned(o: GameObject, s: Spawn)
    reads o, o.fighter
  {
    o.x == s.x && o.y == s.y && o.blocks && o.hasAi && !o.isItem && o.speed == DefaultSpeed
    && o.fighter != null && o.fighter.deathFunction == MonsterDeath && o.fighter.attackSpeed == DefaultAttackSpeed
    && if s.roll < 80 then
         o.glyph == 'o' && o.name == "orc" && o.color == DesaturatedGreen
         && o.fighter.hp == 10 && o.fighter.defense == 0 && o.fighter.power == 3
       else
         o.glyph == 'T' && o.name == "troll" && o.color == DarkerGreen
         && o.fighter.hp == 16 && o.fighter.defense == 1 && o.fighter.power == 4
  }

  /** `o` is the healing potion that `place_objects` makes on the cell `p`. */
  predicate Potion(o: GameObject, p: (int, int))
    reads o
  {
    o.x == p.0 && o.y == p.1 && !o.blocks && !o.hasAi && o.isItem && o.fighter == null
    && o.glyph == '!' && o.name == "healing potion" && o.color == Violet
  }

  /** `kept` lists draw indices below n in strictly increasing order. */
  predicate KeptDraws(kept: seq<nat>, n: nat)
  {
    |kept| <= n && (forall j :: 0 <= j < |kept| ==> kept[j] < n)
    && forall j, j' :: 0 <= j < j' < |kept| ==> kept[j] < kept[j']
  }

  /** Keeping draw i after draws below i keeps the indices increasing, below i + 1. */
  lemma KeptDrawsSnoc(kept: seq<nat>, i: nat)
    requires KeptDraws(kept, i)
    ensures KeptDraws(kept + [i], i + 1)
  {
  }

  /**
   * The monster loop of `place_objects` before draw i: the list is the old
   * list `objs0` followed by `added`, where `added[j]` is the monster of draw
   * `kept[j]`, inside the room on an open tile.
   */
  predicate MonstersAt(objs: seq<GameObject>, objs0: seq<GameObject>, added: seq<GameObject>, kept: seq<nat>,
                       monsters: seq<Spawn>, i: int, room: Rect, grid: array2<Tile>)
    reads (set o | o in added), (set o | o in added && o.fighter != null :: o.fighter), grid
  {
    0 <= i <= |monsters| && KeptDraws(kept, i) && objs == objs0 + added && |added| == |kept|
    && forall j :: 0 <= j < |kept| ==>
      Spawned(added[j], monsters[kept[j]]) && InInterior(room, added[j].x, added[j].y)
      && 0 <= added[j].x < grid.Length0 && 0 <= added[j].y < grid.Length1 && !grid[added[j].x, added[j].y].blocked
  }

  /**
   * The item loop of `place_objects` before draw i: the list is `added`
   * followed by the old list `objs0`, where `added` holds, latest first, the
   * potions of the draws `kept`, inside the room on an open tile.
   */
  predicate ItemsAt(objs: seq<GameObject>, objs0: seq<GameObject>, added: seq<GameObject>, kept: seq<nat>,
                    items: seq<(int, int)>, i: int, room: Rect, grid: array2<Tile>)
    reads (set o | o in added), grid
  {
    0 <= i <= |items| && KeptDraws(kept, i) && objs == added + objs0 && |added| == |kept|
    && forall k :: 0 <= k < |added| ==>
      Potion(added[k], items[kept[|kept| - 1 - k]]) && InInterior(room, added[k].x, added[k].y)
      && 0 <= added[k].x < grid.Length0 && 0 <= added[k].y < grid.Length1 && !grid[added[k].x, added[k].y].blocked
  }

  /** Some monster kept from a draw below `bound` stands on (x, y). */
  predicate KeptOn(monsters: seq<Spawn>, kept: seq<nat>, bound: int, x: int, y: int)
  {
    exists j :: 0 <= j < |kept| && kept[j] < bound && kept[j] < |monsters| && monsters[kept[j]].x == x && monsters[kept[j]].y == y
  }

  /**
   * Up to draw n, the monster loop keeps exactly the draws whose cell is in
   * `open0` (free before the loop) and holds no monster kept earlier: monsters
   * block, so each one placed makes its cell blocked for the later draws.
   */
  predicate KeepsOpenMonsters(monsters: seq<Spawn>, open0: set<int>, kept: seq<nat>, n: int)
  {
    forall d :: 0 <= d < n && d < |monsters| ==> KeepsOpenMonster(monsters, open0, kept, d)
  }

  /** Monster draw d is kept exactly when its cell is in `open0` and holds no monster of an earlier draw. */
  predicate KeepsOpenMonster(monsters: seq<Spawn>, open0: set<int>, kept: seq<nat>, d: int)
    requires 0 <= d < |monsters|
  {
    d in kept <==> d in open0 && !KeptOn(monsters, kept, d, monsters[d].x, monsters[d].y)
  }

  /** Up to draw n, the item loop keeps exactly the draws whose cell is in `open0`: potions do not block. */
  predicate KeepsOpenItems(open0: set<int>, kept: seq<nat>, n: int)
  {
    forall d :: 0 <= d < n ==> (d in kept <==> d in open0)
  }

  /** Keeping draw i puts no monster on a cell of a draw up to i, as seen from that draw. */
  lemma KeptOnSnoc(monsters: seq<Spawn>, kept: seq<nat>, i: int, d: int, x: int, y: int)
    requires 0 <= i && KeptDraws(kept, i) && d <= i
    ensures KeptOn(monsters, kept + [i], d, x, y) <==> KeptOn(monsters, kept, d, x, y)
  {
    var kept' := kept + [i];
    if KeptOn(monsters, kept', d, x, y) {
      var j :| 0 <= j < |kept'| && kept'[j] < d && kept'[j] < |monsters| && monsters[kept'[j]].x == x && monsters[kept'[j]].y == y;
      assert j < |kept| && kept[j] == kept'[j];
    }
    if KeptOn(monsters, kept, d, x, y) {
      var j :| 0 <= j < |kept| && kept[j] < d && kept[j] < |monsters| && monsters[kept[j]].x == x && monsters[kept[j]].y == y;
      assert kept'[j] == kept[j];
    }
  }

  /** Deciding draw i as `is_blocked` does extends `KeepsOpenMonsters` to draw i + 1. */
  lemma KeepsOpenMonstersNext(monsters: seq<Spawn>, open0: set<int>, kept: seq<nat>, i: int, keep: bool)
    requires 0 <= i < |monsters| && KeptDraws(kept, i) && KeepsOpenMonsters(monsters, open0, kept, i)
    requires keep <==> i in open0 && !KeptOn(monsters, kept, i, monsters[i].x, monsters[i].y)
    ensures KeepsOpenMonsters(monsters, open0, if keep then kept + [i] else kept, i + 1)
  {
    var kept' := if keep then kept + [i] else kept;
    forall d | 0 <= d < i + 1 && d < |monsters|
      ensures KeepsOpenMonster(monsters, open0, kept', d)
    {
      KeptOnSnoc(monsters, kept, i, d, monsters[d].x, monsters[d].y);
      if d == i {
        assert i !in kept;
      } else {
        assert KeepsOpenMonster(monsters, open0, kept, d);
        assert d in kept' <==> d in kept;
      }
    }
  }

  /** `KeepsOpenMonsters` over all the draws, one draw at a time. */
  lemma KeepsOpenMonstersDone(monsters: seq<Spawn>, open0: set<int>, kept: seq<nat>)
    requires KeepsOpenMonsters(monsters, open0, kept, |monsters|)
    ensures forall d :: 0 <= d < |monsters| ==>
      (d in kept <==> d in open0 && !KeptOn(monsters, kept, d, monsters[d].x, monsters[d].y))
  {
    forall d | 0 <= d < |monsters|
      ensures d in kept <==> d in open0 && !KeptOn(monsters, kept, d, monsters[d].x, monsters[d].y)
    {
      assert KeepsOpenMonster(monsters, open0, kept, d);
    }
  }

  /** Deciding draw i as `is_blocked` does extends `KeepsOpenItems` to draw i + 1. */
  lemma KeepsOpenItemsNext(open0: set<int>, kept: seq<nat>, i: int, keep: bool)
    requires 0 <= i && KeptDraws(kept, i) && KeepsOpenItems(open0, kept, i)
    requires keep <==> i in open0
    ensures KeepsOpenItems(open0, if keep then kept + [i] else kept, i + 1)
  {
    assert i !in kept;
  }

  /** A blocking object of a concatenation is a blocking object of one of its parts. */
  lemma OccupiedAppend(a: seq<GameObject>, b: seq<GameObject>, x: int, y: int)
    ensures Occupied(a + b, x, y) <==> Occupied(a, x, y) || Occupied(b, x, y)
  {
    if Occupied(a + b, x, y) {
      var i :| 0 <= i < |a + b| && (a + b)[i].blocks && (a + b)[i].x == x && (a + b)[i].y == y;
      if i < |a| {
        assert a[i] == (a + b)[i];
      } else {
        assert b[i - |a|] == (a + b)[i];
      }
    }
    if Occupied(a, x, y) {
      var i :| 0 <= i < |a| && a[i].blocks && a[i].x == x && a[i].y == y;
      assert (a + b)[i] == a[i];
    }
    if Occupied(b, x, y) {
      var i :| 0 <= i < |b| && b[i].blocks && b[i].x == x && b[i].y == y;
      assert (a + b)[|a| + i] == b[i];
    }
  }

  /** The monsters placed for the draws `kept`, all below `bound`, occupy exactly the cells of those draws. */
  lemma OccupiedByKept(added: seq<GameObject>, kept: seq<nat>, monsters: seq<Spawn>, bound: int, x: int, y: int)
    requires |added| == |kept|
    requires forall j :: 0 <= j < |kept| ==> kept[j] < bound && kept[j] < |monsters| && Spawned(added[j], monsters[kept[j]])
    ensures Occupied(added, x, y) <==> KeptOn(monsters, kept, bound, x, y)
  {
    if Occupied(added, x, y) {
      var j :| 0 <= j < |added| && added[j].blocks && added[j].x == x && added[j].y == y;
      assert Spawned(added[j], monsters[kept[j]]);
    }
    if KeptOn(monsters, kept, bound, x, y) {
      var j :| 0 <= j < |kept| && kept[j] < bound && kept[j] < |monsters| && monsters[kept[j]].x == x && monsters[kept[j]].y == y;
      assert Spawned(added[j], monsters[kept[j]]);
    }
  }

  /** Potions do not block, so the potions in front of a list change no cell's occupancy. */
  lemma OccupiedPastPotions(added: seq<GameObject>, objs: seq<GameObject>, x: int, y: int)
    requires forall k :: 0 <= k < |added| ==> !added[k].blocks
    ensures Occupied(added + objs, x, y) <==> Occupied(objs, x, y)
  {
    OccupiedAppend(added, objs, x, y);
  }

  /** The cells of the monster draws, in draw order. */
  function SpawnCells(monsters: seq<Spawn>): (cells: seq<(int, int)>)
    ensures |cells| == |monsters| && forall d :: 0 <= d < |monsters| ==> cells[d] == (monsters[d].x, monsters[d].y)
  {
    seq(|monsters|, d requires 0 <= d < |monsters| => (monsters[d].x, monsters[d].y))
  }

  /**
   * Monster draw i is kept exactly when its tile is open and no blocking
   * object holds its cell: neither one of the objects there before the loop
   * nor the monster of an earlier kept draw.
   */
  lemma MonsterDrawKept(monsters: seq<Spawn>, open0: set<int>, kept: seq<nat>, added: seq<GameObject>,
                        objs0: seq<GameObject>, i: nat, tileBlocked: bool, keep: bool)
    requires i < |monsters| && KeptDraws(kept, i) && |added| == |kept|
    requires forall j :: 0 <= j < |kept| ==> Spawned(added[j], monsters[kept[j]])
    requires KeepsOpenMonsters(monsters, open0, kept, i)
    requires i in open0 <==> !tileBlocked && !Occupied(objs0, monsters[i].x, monsters[i].y)
    requires keep <==> !tileBlocked && !Occupied(objs0 + added, monsters[i].x, monsters[i].y)
    ensures KeepsOpenMonsters(monsters, open0, if keep then kept + [i] else kept, i + 1)
  {
    var x, y := monsters[i].x, monsters[i].y;
    OccupiedAppend(objs0, added, x, y);
    OccupiedByKept(added, kept, monsters, i, x, y);
    KeepsOpenMonstersNext(monsters, open0, kept, i, keep);
  }

  /**
   * Item draw i is kept exactly when its cell was free before the loop: the
   * potions put in front since then do not block.
   */
  lemma ItemDrawKept(open0: set<int>, kept: seq<nat>, added: seq<GameObject>, objs0: seq<GameObject>,
                     i: nat, cell: (int, int), tileBlocked: bool, keep: bool)
    requires KeptDraws(kept, i) && KeepsOpenItems(open0, kept, i)
    requires forall k :: 0 <= k < |added| ==> !added[k].blocks
    requires i in open0 <==> !tileBlocked && !Occupied(objs0, cell.0, cell.1)
    requires keep <==> !tileBlocked && !Occupied(added + objs0, cell.0, cell.1)
    ensures KeepsOpenItems(open0, if keep then kept + [i] else kept, i + 1)
  {
    OccupiedPastPotions(added, objs0, cell.0, cell.1);
    KeepsOpenItemsNext(open0, kept, i, keep);
  }

  /** A draw that places nothing leaves the monster loop's state as it was. */
  lemma MonstersAtSkip(objs: seq<GameObject>, objs0: seq<GameObject>, added: seq<GameObject>, kept: seq<nat>,
                       monsters: seq<Spawn>, i: int, room: Rect, grid: array2<Tile>)
    requires i < |monsters| && MonstersAt(objs, objs0, added, kept, monsters, i, room, grid)
    ensures MonstersAt(objs, objs0, added, kept, monsters, i + 1, room, grid)
  {
  }

  /** A draw that places its monster appends it to `added` and the draw to `kept`. */
  lemma MonstersAtKeep(objs: seq<GameObject>, objs0: seq<GameObject>, added: seq<GameObject>, kept: seq<nat>,
                       monsters: seq<Spawn>, i: int, room: Rect, grid: array2<Tile>, placed: GameObject)
    requires i < |monsters| && MonstersAt(objs, objs0, added, kept, monsters, i, room, grid)
    requires Spawned(placed, monsters[i]) && InInterior(room, placed.x, placed.y)
    requires 0 <= placed.x < grid.Length0 && 0 <= placed.y < grid.Length1 && !grid[placed.x, placed.y].blocked
    ensures MonstersAt(objs + [placed], objs0, added + [placed], kept + [i], monsters, i + 1, room, grid)
  {
    KeptDrawsSnoc(kept, i);
  }

  /** A draw that places nothing leaves the item loop's state as it was. */
  lemma ItemsAtSkip(objs: seq<GameObject>, objs0: seq<GameObject>, added: seq<GameObject>, kept: seq<nat>,
                    items: seq<(int, int)>, i: int, room: Rect, grid: array2<Tile>)
    requires i < |items| && ItemsAt(objs, objs0, added, kept, items, i, room, grid)
    ensures ItemsAt(objs, objs0, added, kept, items, i + 1, room, grid)
  {
  }

  /** A draw that places its potion puts it at the front of `added` and the draw at the end of `kept`. */
  lemma ItemsAtKeep(objs: seq<GameObject>, objs0: seq<GameObject>, added: seq<GameObject>, kept: seq<nat>,
                    items: seq<(int, int)>, i: int, room: Rect, grid: array2<Tile>, placed: GameObject)
    requires i < |items| && ItemsAt(objs, objs0, added, kept, items, i, room, grid)
    requires Potion(placed, items[i]) && InInterior(room, placed.x, placed.y)
    requires 0 <= placed.x < grid.Length0 && 0 <= placed.y < grid.Length1 && !grid[placed.x, placed.y].blocked
    ensures ItemsAt([placed] + objs, objs0, [placed] + added, kept + [i], items, i + 1, room, grid)
  {
    KeptDrawsSnoc(kept, i);
    var added', kept' := [placed] + added, kept + [i];
    forall k | 1 <= k < |added'|
      ensures added'[k] == added[k - 1] && kept'[|kept'| - 1 - k] == kept[|kept| - 1 - (k - 1)]
    {
    }
  }

  /** The new objects of the finished monster loop are the monsters it added, inside the room on open tiles. */
  lemma MonstersAtDone(objs: seq<GameObject>, objs0: seq<GameObject>, added: seq<GameObject>, kept: seq<nat>,
                       monsters: seq<Spawn>, room: Rect, grid: array2<Tile>)
    requires MonstersAt(objs, objs0, added, kept, monsters, |monsters|, room, grid)
    ensures forall o :: o in objs && o !in objs0 ==>
      o in added && InInterior(room, o.x, o.y) && 0 <= o.x < grid.Length0 && 0 <= o.y < grid.Length1
      && !grid[o.x, o.y].blocked
  {
    forall o | o in objs && o !in objs0
      ensures o in added && InInterior(room, o.x, o.y) && 0 <= o.x < grid.Length0 && 0 <= o.y < grid.Length1
      && !grid[o.x, o.y].blocked
    {
      var k :| 0 <= k < |objs| && objs[k] == o;
      assert objs[k] == added[k - |objs0|];
    }
  }

  /** The new objects of the finished item loop are the potions it added, inside the room on open tiles. */
  lemma ItemsAtDone(objs: seq<GameObject>, objs0: seq<GameObject>, added: seq<GameObject>, kept: seq<nat>,
                    items: seq<(int, int)>, room: Rect, grid: array2<Tile>)
    requires ItemsAt(objs, objs0, added, kept, items, |items|, room, grid)
    ensures forall o :: o in objs && o !in objs0 ==>
      o in added && InInterior(room, o.x, o.y) && 0 <= o.x < grid.Length0 && 0 <= o.y < grid.Length1
      && !grid[o.x, o.y].blocked
  {
    forall o | o in objs && o !in objs0
      ensures o in added && InInterior(room, o.x, o.y) && 0 <= o.x < grid.Length0 && 0 <= o.y < grid.Length1
      && !grid[o.x, o.y].blocked
    {
      var k :| 0 <= k < |objs| && objs[k] == o;
      assert objs[k] == added[k];
    }
  }

  /** Two different blocking objects of `objs` never stand on the same cell. */
  predicate Unstacked(objs: seq<GameObject>)
    reads ObjectsOf(objs)
  {
    forall a, b :: a in objs && b in objs && a != b && a.blocks && b.blocks ==> a.x != b.x || a.y != b.y
  }

  /** Reordering the list keeps it unstacked. */
  lemma UnstackedPermutation(a: seq<GameObject>, b: seq<GameObject>)
    requires multiset(a) == multiset(b) && Unstacked(a)
    ensures Unstacked(b)
  {
    forall o | o in b
      ensures o in a
    {
      assert o in multiset(b);
    }
  }

  /** Adding an object that does not block keeps the list unstacked. */
  lemma UnstackedAppendIdle(a: seq<GameObject>, o: GameObject)
    requires !o.blocks && Unstacked(a)
    ensures Unstacked(a + [o])
  {
  }

  /**
   * The random draws of one pass of the `make_map` loop: the room's size and
   * corner, the coin choosing the corridor's shape, and the spawn draws that
   * `place_objects` makes if the room is accepted.
   */
  datatype RoomDraw = RoomDraw(w: int, h: int, x: int, y: int, coin: int,
                               monsters: seq<Spawn>, items: seq<(int, int)>)

  /** The room of a draw: `Rect(x, y, w, h)`. */
  function RectOf(d: RoomDraw): Rect
  {
    MakeRect(d.x, d.y, d.w, d.h)
  }

  /** The ranges of the `random_get_int` calls that make a draw. */
  predicate DrawInRange(d: RoomDraw)
  {
    RoomMinSize <= d.w <= RoomMaxSize && RoomMinSize <= d.h <= RoomMaxSize
    && 0 <= d.x <= MapWidth - d.w - 1 && 0 <= d.y <= MapHeight - d.h - 1
    && 0 <= d.coin <= 1
    && |d.monsters| <= MaxRoomMonsters && |d.items| <= MaxRoomItems
    && (forall k :: 0 <= k < |d.monsters| ==>
          InInterior(RectOf(d), d.monsters[k].x, d.monsters[k].y) && 0 <= d.monsters[k].roll <= 100)
    && (forall k :: 0 <= k < |d.items| ==> InInterior(RectOf(d), d.items[k].0, d.items[k].1))
  }

  /** The room of `d` intersects the room of some draw in `accepted`. */
  predicate Collides(d: RoomDraw, accepted: seq<RoomDraw>)
  {
    exists k :: 0 <= k < |accepted| && Intersect(RectOf(d), RectOf(accepted[k]))
  }

  /** The draws whose rooms `make_map` keeps: a room is kept when it intersects no room kept before it. */
  function Accepted(draws: seq<RoomDraw>): seq<RoomDraw>
    decreases |draws|
  {
    if draws == [] then []
    else
      var prev := Accepted(draws[..|draws| - 1]);
      var d := draws[|draws| - 1];
      if Collides(d, prev) then prev else prev + [d]
  }

  /** One more draw: the room of draw r is kept exactly when it misses every room kept from the draws before it. */
  lemma AcceptedPrefixStep(draws: seq<RoomDraw>, r: nat)
    requires r < |draws|
    ensures Accepted(draws[..r + 1]) ==
      if Collides(draws[r], Accepted(draws[..r])) then Accepted(draws[..r]) else Accepted(draws[..r]) + [draws[r]]
  {
    assert draws[..r + 1][..r] == draws[..r];
  }

  /** The accepted rooms are pairwise disjoint, borders included: no two of them intersect. */
  lemma {:induction false} AcceptedDisjoint(draws: seq<RoomDraw>)
    ensures forall k, l :: 0 <= k < |Accepted(draws)| && 0 <= l < |Accepted(draws)| && k != l ==>
      !Intersect(RectOf(Accepted(draws)[k]), RectOf(Accepted(draws)[l]))
    decreases |draws|
  {
    if draws != [] {
      var prev := Accepted(draws[..|draws| - 1]);
      var d := draws[|draws| - 1];
      AcceptedDisjoint(draws[..|draws| - 1]);
      if !Collides(d, prev) {
        var acc := prev + [d];
        forall k, l | 0 <= k < |acc| && 0 <= l < |acc| && k != l
          ensures !Intersect(RectOf(acc[k]), RectOf(acc[l]))
        {
          if k == |prev| {
            assert !Intersect(RectOf(d), RectOf(prev[l]));
          } else if l == |prev| {
            assert !Intersect(RectOf(d), RectOf(prev[k]));
            IntersectSymmetric(RectOf(d), RectOf(prev[k]));
          }
        }
      }
    }
  }

  /**
   * At most one room per draw is kept, the first draw's room always is, the
   * kept draws keep their order, and each one is a draw of the input.
   */
  lemma {:induction false} AcceptedShape(draws: seq<RoomDraw>)
    ensures |Accepted(draws)| <= |draws|
    ensures draws != [] ==> |Accepted(draws)| >= 1 && Accepted(draws)[0] == draws[0]
    ensures forall k :: 0 <= k < |Accepted(draws)| ==> Accepted(draws)[k] in draws
    decreases |draws|
  {
    if draws != [] {
      var init := draws[..|draws| - 1];
      AcceptedShape(init);
      if init == [] {
        assert Accepted(init) == [];
        assert !Collides(draws[0], []);
      } else {
        assert init[0] == draws[0];
      }
      forall k | 0 <= k < |Accepted(draws)|
        ensures Accepted(draws)[k] in draws
      {
        if k < |Accepted(init)| {
          assert Accepted(init)[k] in init;
        }
      }
    }
  }

  /** A wall as `Tile(True)` makes it. */
  const Wall: Tile := NewTile(true, None)

  /** A cell opened by `create_room` or a tunnel. */
  const Floor: Tile := Tunnel(Wall)

  /**
   * Cell (i, j) lies on the L-shaped corridor from centre `p` to centre
   * `n`: along row p.1 then column n.0 when `hFirst`, otherwise along
   * column p.0 then row n.1.
   */
  predicate OnCorridor(p: (int, int), n: (int, int), hFirst: bool, i: int, j: int)
  {
    if hFirst then OnHTunnel(p.0, n.0, p.1, i, j) || OnVTunnel(p.1, n.1, n.0, i, j)
    else OnVTunnel(p.1, n.1, p.0, i, j) || OnHTunnel(p.0, n.0, n.1, i, j)
  }

  /** The corridor that joins the last of `accepted` to the room of `d`, when `accepted` is not empty. */
  predicate JoinedBy(accepted: seq<RoomDraw>, d: RoomDraw, i: int, j: int)
  {
    |accepted| > 0 && OnCorridor(Center(RectOf(accepted[|accepted| - 1])), Center(RectOf(d)), d.coin == 1, i, j)
  }

  /** Cell (i, j) is opened by the rooms `accepted` and the corridors between consecutive ones. */
  predicate Open(accepted: seq<RoomDraw>, i: int, j: int)
    decreases |accepted|
  {
    |accepted| > 0 &&
      var prev := accepted[..|accepted| - 1];
      var d := accepted[|accepted| - 1];
      Open(prev, i, j) || InInterior(RectOf(d), i, j) || JoinedBy(prev, d, i, j)
  }

  /** Every cell of the grid is floor exactly when the accepted rooms and corridors open it, and wall otherwise. */
  ghost predicate Carved(grid: array2<Tile>, accepted: seq<RoomDraw>)
    reads grid
  {
    forall i, j :: 0 <= i < grid.Length0 && 0 <= j < grid.Length1 ==>
      grid[i, j] == if Open(accepted, i, j) then Floor else Wall
  }

  /** Carving one more room and its corridor extends the carving of the earlier ones. */
  lemma CarvedSnoc(grid: array2<Tile>, accepted: seq<RoomDraw>, d: RoomDraw)
    requires forall i, j :: 0 <= i < grid.Length0 && 0 <= j < grid.Length1 ==>
      grid[i, j] == if Open(accepted, i, j) || InInterior(RectOf(d), i, j) || JoinedBy(accepted, d, i, j) then Floor else Wall
    ensures Carved(grid, accepted + [d])
  {
    assert (accepted + [d])[..|accepted|] == accepted;
  }

  /** Every interior cell of every accepted room and every cell of every corridor is open. */
  lemma {:induction false} OpenCovers(accepted: seq<RoomDraw>, k: int, i: int, j: int)
    requires 0 <= k < |accepted|
    ensures InInterior(RectOf(accepted[k]), i, j) ==> Open(accepted, i, j)
    ensures 0 < k && OnCorridor(Center(RectOf(accepted[k - 1])), Center(RectOf(accepted[k])), accepted[k].coin == 1, i, j)
      ==> Open(accepted, i, j)
    decreases |accepted|
  {
    var prev := accepted[..|accepted| - 1];
    if k < |accepted| - 1 {
      OpenCovers(prev, k, i, j);
    } else if 0 < k {
      assert prev[|prev| - 1] == accepted[k - 1];
    }
  }

  /** Some accepted room holds (x, y) strictly inside. */
  predicate InSomeRoom(accepted: seq<RoomDraw>, x: int, y: int)
  {
    exists k :: 0 <= k < |accepted| && InInterior(RectOf(accepted[k]), x, y)
  }

  /** Appending a room adds exactly its interior to the cells inside some room. */
  lemma InSomeRoomSnoc(accepted: seq<RoomDraw>, d: RoomDraw, x: int, y: int)
    ensures InSomeRoom(accepted + [d], x, y) <==> InSomeRoom(accepted, x, y) || InInterior(RectOf(d), x, y)
  {
    var acc := accepted + [d];
    if InSomeRoom(accepted, x, y) {
      var k :| 0 <= k < |accepted| && InInterior(RectOf(accepted[k]), x, y);
      assert acc[k] == accepted[k];
    }
    if InInterior(RectOf(d), x, y) {
      assert acc[|accepted|] == d;
    }
    if InSomeRoom(acc, x, y) {
      var k :| 0 <= k < |acc| && InInterior(RectOf(acc[k]), x, y);
      if k < |accepted| {
        assert acc[k] == accepted[k];
      }
    }
  }

  /**
   * On a carved map, every cell strictly inside an accepted room is on the
   * map and open: where `place_objects` puts objects and where the player starts.
   */
  lemma FloorInRooms(grid: array2<Tile>, accepted: seq<RoomDraw>, x: int, y: int)
    requires grid.Length0 == MapWidth && grid.Length1 == MapHeight && Carved(grid, accepted)
    requires forall k :: 0 <= k < |accepted| ==> DrawInRange(accepted[k])
    requires InSomeRoom(accepted, x, y)
    ensures 0 <= x < MapWidth && 0 <= y < MapHeight && !grid[x, y].blocked
  {
    var k :| 0 <= k < |accepted| && InInterior(RectOf(accepted[k]), x, y);
    OpenCovers(accepted, k, x, y);
  }

  /**
   * A drawn room is well formed and lies inside the map with a column and
   * a row to spare, and its centre is strictly inside it, so the player
   * starts on an opened cell.
   */
  lemma DrawnRoomFits(d: RoomDraw)
    requires DrawInRange(d)
    ensures WellFormed(RectOf(d))
    ensures 0 <= RectOf(d).x1 && RectOf(d).x2 <= MapWidth - 1 && 0 <= RectOf(d).y1 && RectOf(d).y2 <= MapHeight - 1
    ensures InInterior(RectOf(d), Center(RectOf(d)).0, Center(RectOf(d)).1)
  {
  }

  /**
   * On a carved map, every cell of the L-shaped corridor between the centres
   * of two consecutive accepted rooms is on the map and open, whichever way
   * the coin fell.
   */
  lemma CorridorIsOpen(grid: array2<Tile>, accepted: seq<RoomDraw>, k: int, i: int, j: int)
    requires grid.Length0 == MapWidth && grid.Length1 == MapHeight && Carved(grid, accepted)
    requires forall l :: 0 <= l < |accepted| ==> DrawInRange(accepted[l])
    requires 0 < k < |accepted|
    requires OnCorridor(Center(RectOf(accepted[k - 1])), Center(RectOf(accepted[k])), accepted[k].coin == 1, i, j)
    ensures 0 <= i < MapWidth && 0 <= j < MapHeight && !grid[i, j].blocked
  {
    DrawnRoomFits(accepted[k - 1]);
    DrawnRoomFits(accepted[k]);
    OpenCovers(accepted, k, i, j);
  }

  /** The map `make_map` starts from: MAP_WIDTH by MAP_HEIGHT tiles of `Tile(True)`, nothing carved. */
  method FreshMap() returns (grid: array2<Tile>)
    ensures fresh(grid) && grid.Length0 == MapWidth && grid.Length1 == MapHeight
    ensures Carved(grid, [])
  {
    grid := new Tile[MapWidth, MapHeight]((i, j) => NewTile(true, None));
  }

  /** Overlaps(new_room, rooms): the `for other_room in rooms` test with its early `break`. */
  method Overlaps(room: Rect, accepted: seq<RoomDraw>) returns (failed: bool)
    ensures failed <==> exists k :: 0 <= k < |accepted| && Intersect(room, RectOf(accepted[k]))
  {
    failed := false;
    var k := 0;
    while k < |accepted|
      invariant 0 <= k <= |accepted|
      invariant forall l :: 0 <= l < k ==> !Intersect(room, RectOf(accepted[l]))
    {
      if Intersect(room, RectOf(accepted[k])) {
        failed := true;
        break;
      }
      k := k + 1;
    }
  }

  /** The game state that roguelike.py keeps in module globals. */
  class Game {
    var tiles: array2<Tile>
    var objects: seq<GameObject>
    var msgs: seq<Line>
    var fovRecompute: bool
    var gameState: string
    const player: GameObject
    /** `textwrap.wrap(_, MSG_WIDTH)` */
    const wrap: string -> seq<string>

    /**
     * The globals the script sets at roguelike.py:770-782 (the player '@',
     * "player", white, blocking, with no AI and no item component, 30 hit
     * points, defence 2, power 5, `player_death`, the default attack speed
     * and speed PLAYER_SPEED at (0, 0), the object list holding only the
     * player, an empty log) plus the flags of roguelike.py:797-798. The script has no
     * map before `make_map`; `tiles` starts as an all-wall grid of the map
     * size, which `MakeMap` replaces.
     */
    constructor (wrap: string -> seq<string>)
      ensures Valid() && fresh(tiles) && fresh(player) && fresh(player.fighter)
      ensures objects == [player] && msgs == [] && fovRecompute && gameState == "playing"
      ensures player.x == 0 && player.y == 0 && player.blocks && player.speed == PlayerSpeed
      ensures player.fighter != null && player.fighter.hp == 30 && player.fighter.deathFunction == PlayerDeath
      ensures player.fighter.defense == 2 && player.fighter.power == 5
      ensures player.fighter.maxHp == 30 && player.fighter.attackSpeed == DefaultAttackSpeed
      ensures player.glyph == '@' && player.name == "player" && player.color == White
      ensures !player.hasAi && !player.isItem && player.wait == 0
      ensures forall i, j :: 0 <= i < MapWidth && 0 <= j < MapHeight ==> tiles[i, j] == NewTile(true, None)
      ensures this.wrap == wrap
    {
      var f := new OldFighter(30, 2, 5, PlayerDeath, DefaultAttackSpeed);
      player := new GameObject(0, 0, '@', "player", White, true, f, false, PlayerSpeed, false);
      objects := [player];
      msgs := [];
      fovRecompute := true;
      gameState := "playing";
      this.wrap := wrap;
      tiles := new Tile[MapWidth, MapHeight]((i, j) => NewTile(true, None));
    }

    /** The map has the configured size. */
    predicate Valid()
      reads this
    {
      tiles.Length0 == MapWidth && tiles.Length1 == MapHeight
    }

    /** (x, y) is an index pair Python accepts on `tiles[x][y]`. */
    predicate InGrid(x: int, y: int)
      reads this
    {
      -tiles.Length0 <= x < tiles.Length0 && -tiles.Length1 <= y < tiles.Length1
    }

    /** `is_blocked(x, y)` as a specification: a blocked tile, or a blocking object on the cell. */
    predicate Blocked(x: int, y: int)
      requires InGrid(x, y)
      reads this, tiles, set o | o in objects
    {
      tiles[Cell(x, tiles.Length0), Cell(y, tiles.Length1)].blocked || Occupied(objects, x, y)
    }

    /** `is_blocked(x, y)`: the tile test, then the loop over the objects. */
    method IsBlocked(x: int, y: int) returns (b: bool)
      requires InGrid(x, y)
      ensures b == Blocked(x, y)
    {
      if tiles[Cell(x, tiles.Length0), Cell(y, tiles.Length1)].blocked {
        return true;
      }
      var i := 0;
      while i < |objects|
        invariant 0 <= i <= |objects|
        invariant forall k :: 0 <= k < i ==> !(objects[k].blocks && objects[k].x == x && objects[k].y == y)
      {
        var o := objects[i];
        if o.blocks && o.x == x && o.y == y {
          return true;
        }
        i := i + 1;
      }
      return false;
    }

    /** `not is_blocked(x, y)` on a cell of the map. */
    predicate FreeCell(x: int, y: int)
      reads this, tiles, set o | o in objects
    {
      InGrid(x, y) && !Blocked(x, y)
    }

    /** Draw d is in `open0` exactly when `is_blocked` finds its cell free now. */
    predicate OpenDraw(open0: set<int>, cells: seq<(int, int)>, d: int)
      requires 0 <= d < |cells|
      reads this, tiles, set o | o in objects
    {
      d in open0 <==> FreeCell(cells[d].0, cells[d].1)
    }

    /** The draws, among `cells`, whose cell `is_blocked` finds free now. */
    ghost function OpenDraws(cells: seq<(int, int)>): (open0: set<int>)
      requires forall d :: 0 <= d < |cells| ==> 0 <= cells[d].0 < tiles.Length0 && 0 <= cells[d].1 < tiles.Length1
      reads this, tiles, set o | o in objects
      ensures forall d :: 0 <= d < |cells| ==> OpenDraw(open0, cells, d)
    {
      set d | 0 <= d < |cells| && FreeCell(cells[d].0, cells[d].1)
    }

    /**
     * Draw d is in `open0` exactly when `is_blocked` would find, at its cell
     * (if on the map), neither a blocked tile nor a blocking object of `objs`.
     */
    ghost predicate FreeDraw(open0: set<int>, cells: seq<(int, int)>, objs: seq<GameObject>, d: int)
      requires 0 <= d < |cells|
      reads this`tiles, tiles, set o | o in objs
    {
      0 <= cells[d].0 < tiles.Length0 && 0 <= cells[d].1 < tiles.Length1 ==>
        (d in open0 <==> !tiles[cells[d].0, cells[d].1].blocked && !Occupied(objs, cells[d].0, cells[d].1))
    }

    /** Monster draw i, decided by `is_blocked` on the map as it is now, extends `KeepsOpenMonsters`. */
    lemma MonsterDrawNext(room: Rect, monsters: seq<Spawn>, i: nat, objs0: seq<GameObject>, open0: set<int>,
                          kept: seq<nat>, added: seq<GameObject>)
      requires RoomInGrid(room)
      requires forall k :: 0 <= k < |monsters| ==> InInterior(room, monsters[k].x, monsters[k].y)
      requires i < |monsters| && MonstersAt(objects, objs0, added, kept, monsters, i, room, tiles)
      requires FreeDraw(open0, SpawnCells(monsters), objs0, i) && KeepsOpenMonsters(monsters, open0, kept, i)
      ensures KeepsOpenMonsters(monsters, open0, if FreeCell(monsters[i].x, monsters[i].y) then kept + [i] else kept, i + 1)
    {
      var x, y := monsters[i].x, monsters[i].y;
      assert SpawnCells(monsters)[i] == (x, y);
      MonsterDrawKept(monsters, open0, kept, added, objs0, i, tiles[x, y].blocked, FreeCell(x, y));
    }

    /** Item draw i, decided by `is_blocked` on the map as it is now, extends `KeepsOpenItems`. */
    lemma ItemDrawNext(room: Rect, items: seq<(int, int)>, i: nat, objs0: seq<GameObject>, open0: set<int>,
                       kept: seq<nat>, added: seq<GameObject>)
      requires RoomInGrid(room)
      requires forall k :: 0 <= k < |items| ==> InInterior(room, items[k].0, items[k].1)
      requires i < |items| && ItemsAt(objects, objs0, added, kept, items, i, room, tiles)
      requires FreeDraw(open0, items, objs0, i) && KeepsOpenItems(open0, kept, i)
      ensures KeepsOpenItems(open0, if FreeCell(items[i].0, items[i].1) then kept + [i] else kept, i + 1)
    {
      ItemDrawKept(open0, kept, added, objs0, i, items[i], tiles[items[i].0, items[i].1].blocked, FreeCell(items[i].0, items[i].1));
    }

    /** `Object.move(dx, dy)`: steps only onto a cell that is not blocked; the wait is reset either way. */
    method Move(o: GameObject, dx: int, dy: int)
      requires InGrid(o.x + dx, o.y + dy)
      modifies o`x, o`y, o`wait
      ensures old(Blocked(o.x + dx, o.y + dy)) ==> o.x == old(o.x) && o.y == old(o.y)
      ensures !old(Blocked(o.x + dx, o.y + dy)) ==> o.x == old(o.x) + dx && o.y == old(o.y) + dy
      ensures o.wait == o.speed
    {
      var b := IsBlocked(o.x + dx, o.y + dy);
      if !b {
        o.x := o.x + dx;
        o.y := o.y + dy;
      }
      o.wait := o.speed;
    }

    /** `Object.send_to_back()`: `o` goes to index 0 and the others keep their order. */
    method SendToBack(o: GameObject)
      requires o in objects
      modifies this`objects
      ensures objects == ToFront(old(objects), o)
      ensures objects[0] == o && multiset(objects) == multiset(old(objects))
    {
      ToFrontIsPermutation(objects, o);
      objects := ToFront(objects, o);
    }

    /** `message(new_msg, color)`: the same bounded log as messages.py, on `game_msgs`. */
    method Message(msg: string, color: Color)
      modifies this`msgs
      ensures msgs == Logged(old(msgs), Tag(wrap(msg), color), MsgHeight)
      ensures old(|msgs|) <= MsgHeight ==> |msgs| <= MsgHeight
    {
      var lines := wrap(msg);
      var tagged := Tag(lines, color);
      var i := 0;
      while i < |lines|
        invariant 0 <= i <= |lines|
        invariant msgs == Logged(old(msgs), tagged[..i], MsgHeight)
      {
        LoggedSnoc(old(msgs), tagged[..i], tagged[i], MsgHeight);
        assert tagged[..i + 1] == tagged[..i] + [tagged[i]];
        if |msgs| == MsgHeight {
          msgs := msgs[1..];
        }
        msgs := msgs + [(lines[i], color)];
        i := i + 1;
      }
      assert tagged[..i] == tagged;
      if old(|msgs|) <= MsgHeight {
        LoggedKeepsNewest(old(msgs), tagged, MsgHeight);
      }
    }

    /**
     * The explored-memory half of `render_all`: after a recompute every cell
     * of the field of view `fov` is explored, no other field of any tile
     * changes, and nothing is recomputed unless `fov_recompute` was set.
     */
    method RenderFov(fov: set<(int, int)>)
      requires Valid()
      modifies this`fovRecompute, tiles
      ensures !old(fovRecompute) ==> !fovRecompute && unchanged(tiles)
      ensures old(fovRecompute) ==>
        !fovRecompute
        && (forall i, j :: 0 <= i < tiles.Length0 && 0 <= j < tiles.Length1 ==>
              tiles[i, j] == if (i, j) in fov then old(tiles[i, j]).(explored := true) else old(tiles[i, j]))
      ensures forall i, j :: 0 <= i < tiles.Length0 && 0 <= j < tiles.Length1 && old(tiles[i, j].explored) ==> tiles[i, j].explored
    {
      if !fovRecompute {
        return;
      }
      fovRecompute := false;
      var y := 0;
      while y < MapHeight
        invariant 0 <= y <= MapHeight && !fovRecompute
        invariant forall i, j :: 0 <= i < tiles.Length0 && 0 <= j < tiles.Length1 ==>
          tiles[i, j] == if j < y && (i, j) in fov then old(tiles[i, j]).(explored := true) else old(tiles[i, j])
      {
        var x := 0;
        while x < MapWidth
          invariant 0 <= x <= MapWidth && !fovRecompute
          invariant forall i, j :: 0 <= i < tiles.Length0 && 0 <= j < tiles.Length1 ==>
            tiles[i, j] == if (j < y || (j == y && i < x)) && (i, j) in fov then old(tiles[i, j]).(explored := true) else old(tiles[i, j])
        {
          if (x, y) in fov {
            tiles[x, y] := tiles[x, y].(explored := true);
          }
          x := x + 1;
        }
        y := y + 1;
      }
    }
  
    /** The log `message(msg, color)` would leave on top of `buffer`. */
    function Said(buffer: seq<Line>, msg: string, color: Color): seq<Line>
      reads this
    {
      Logged(buffer, Tag(wrap(msg), color), MsgHeight)
    }

    /**
     * The effect of the older death function `df` (or none) on `o`, logged
     * on top of `logBefore`: `monster_death` turns a monster into remains
     * sent to the back of the list; `player_death` ends the game.
     */
    twostate predicate OldDied(o: GameObject, df: DeathFunction, new logBefore: seq<Line>)
      reads this, o
    {
      match df
      case NoDeath =>
        msgs == logBefore && objects == old(objects) && gameState == old(gameState)
        && o.glyph == old(o.glyph) && o.color == old(o.color) && o.blocks == old(o.blocks)
        && o.fighter == old(o.fighter) && o.hasAi == old(o.hasAi) && o.name == old(o.name)
      case MonsterDeath =>
        msgs == Said(logBefore, Capitalize(old(o.name)) + " is dead!", Orange)
        && o.glyph == '%' && o.color == DarkRed && !o.blocks && o.fighter == null && !o.hasAi
        && o.name == "remains of " + old(o.name)
        && o in old(objects) && objects == ToFront(old(objects), o) && gameState == old(gameState)
      case PlayerDeath =>
        msgs == Said(logBefore, "You died!", Red) && gameState == "dead"
        && o.glyph == '%' && o.color == DarkRed && objects == old(objects)
        && o.blocks == old(o.blocks) && o.fighter == old(o.fighter) && o.hasAi == old(o.hasAi) && o.name == old(o.name)
    }

    /** The older `monster_death(monster)` */
    method OldMonsterDeath(m: GameObject)
      requires m in objects
      modifies this`msgs, this`objects, m`glyph, m`color, m`blocks, m`fighter, m`hasAi, m`name
      ensures OldDied(m, MonsterDeath, old(msgs))
    {
      Message(Capitalize(m.name) + " is dead!", Orange);
      m.glyph := '%';
      m.color := DarkRed;
      m.blocks := false;
      m.fighter := null;
      m.hasAi := false;
      m.name := "remains of " + m.name;
      SendToBack(m);
    }

    /** The older `player_death(player)` */
    method OldPlayerDeath(p: GameObject)
      modifies this`msgs, this`gameState, p`glyph, p`color
      ensures OldDied(p, PlayerDeath, old(msgs))
    {
      Message("You died!", Red);
      gameState := "dead";
      p.glyph := '%';
      p.color := DarkRed;
    }

    /**
     * The older `Fighter.take_damage(damage)`: hit points drop only for a
     * positive damage, but the death function runs whenever the hit points
     * end at zero or below, whatever the damage.
     */
    method OldTakeDamage(o: GameObject, damage: int)
      requires o.fighter != null && (o.fighter.deathFunction == MonsterDeath ==> o in objects)
      modifies o.fighter`hp, this`msgs, this`objects, this`gameState
      modifies o`glyph, o`color, o`blocks, o`fighter, o`hasAi, o`name
      ensures var f := old(o.fighter);
        f.hp == old(f.hp) - (if damage > 0 then damage else 0)
        && OldDied(o, if f.hp <= 0 then f.deathFunction else NoDeath, old(msgs))
    {
      var f := o.fighter;
      if damage > 0 {
        f.hp := f.hp - damage;
      }
      if f.hp <= 0 {
        match f.deathFunction
        case NoDeath =>
        case MonsterDeath => OldMonsterDeath(o);
        case PlayerDeath => OldPlayerDeath(o);
      }
    }

    /**
     * The outcome of the older `a.fighter.attack(target)`: a positive damage
     * (power less the target's defence) is logged and dealt, anything else is
     * logged as having no effect; the attacker then waits its attack speed.
     */
    twostate predicate OldAttacked(a: GameObject, af: OldFighter, target: GameObject, tf: OldFighter)
      reads this, a, target, tf
    {
      var d := af.power - tf.defense;
      a.wait == af.attackSpeed
      && if d > 0 then
        tf.hp == old(tf.hp) - d
        && OldDied(target, if tf.hp <= 0 then tf.deathFunction else NoDeath,
                   Said(old(msgs), HitMessage(old(a.name), old(target.name), d), White))
      else
        tf.hp == old(tf.hp) && OldDied(target, NoDeath, Said(old(msgs), NoEffectMessage(old(a.name), old(target.name)), White))
    }

    /** The positive-damage branch of the older `attack`: the hit is logged, then dealt. */
    method OldHit(attacker: string, target: GameObject, damage: int)
      requires damage > 0 && target.fighter != null
      requires target.fighter.deathFunction == MonsterDeath ==> target in objects
      modifies target.fighter`hp, this`msgs, this`objects, this`gameState
      modifies target`glyph, target`color, target`blocks, target`fighter, target`hasAi, target`name
      ensures var tf := old(target.fighter);
        tf.hp == old(tf.hp) - damage
        && OldDied(target, if tf.hp <= 0 then tf.deathFunction else NoDeath,
                   Said(old(msgs), HitMessage(attacker, old(target.name), damage), White))
    {
      Message(HitMessage(attacker, target.name, damage), White);
      OldTakeDamage(target, damage);
    }

    /** The older `Fighter.attack(target)` of the Fighter of `a`. */
    method OldAttack(a: GameObject, target: GameObject)
      requires a.fighter != null && target.fighter != null
      requires target.fighter.deathFunction == MonsterDeath ==> target in objects
      modifies target.fighter`hp, this`msgs, this`objects, this`gameState, a`wait
      modifies target`glyph, target`color, target`blocks, target`fighter, target`hasAi, target`name
      ensures OldAttacked(a, old(a.fighter), target, old(target.fighter))
    {
      var af := a.fighter;
      var damage := af.power - target.fighter.defense;
      if damage > 0 {
        OldHit(a.name, target, damage);
      } else {
        Message(NoEffectMessage(a.name, target.name), White);
      }
      a.wait := af.attackSpeed;
    }
  
    /** The `for object in objects` search of `player_move_or_attack` for a fighter on (x, y). */
    method FindFighterAt(x: int, y: int) returns (target: GameObject?)
      ensures target == FirstFighterAt(objects, x, y)
    {
      target := null;
      var i := 0;
      while i < |objects|
        invariant 0 <= i <= |objects|
        invariant forall k :: 0 <= k < i ==> !(objects[k].fighter != null && objects[k].x == x && objects[k].y == y)
      {
        var o := objects[i];
        if o.fighter != null && o.x == x && o.y == y {
          FirstFighterAtIndex(objects, x, y, i);
          return o;
        }
        i := i + 1;
      }
    }

    /**
     * The attack branch of `player_move_or_attack`: the player's Fighter
     * attacks `t`, and no other object and no other Fighter changes.
     */
    method PlayerAttack(t: GameObject)
      requires player.fighter != null && t.fighter != null && t in objects
      modifies this`msgs, this`objects, this`gameState, player`wait
      modifies t`glyph, t`color, t`blocks, t`fighter, t`hasAi, t`name, t.fighter`hp
      ensures OldAttacked(player, old(player.fighter), t, old(t.fighter))
      ensures player.x == old(player.x) && player.y == old(player.y) && fovRecompute == old(fovRecompute)
      ensures forall o :: o in old(objects) && o != t ==>
        o.glyph == old(o.glyph) && o.color == old(o.color) && o.blocks == old(o.blocks)
        && o.fighter == old(o.fighter) && o.hasAi == old(o.hasAi) && o.name == old(o.name)
      ensures forall o :: o in old(objects) && old(o.fighter) != null && old(o.fighter) != old(t.fighter) ==>
        old(o.fighter).hp == old(o.fighter.hp)
      ensures t != player ==> player.fighter == old(player.fighter)
    {
      OldAttack(player, t);
    }

    /**
     * The move branch of `player_move_or_attack`: the player moves unless
     * the cell is blocked, and the field of view is to be recomputed.
     */
    method PlayerStep(dx: int, dy: int)
      requires InGrid(player.x + dx, player.y + dy)
      modifies this`fovRecompute, player`x, player`y, player`wait
      ensures if old(Blocked(player.x + dx, player.y + dy))
        then player.x == old(player.x) && player.y == old(player.y)
        else player.x == old(player.x) + dx && player.y == old(player.y) + dy
      ensures player.wait == player.speed && fovRecompute
      ensures msgs == old(msgs) && objects == old(objects) && gameState == old(gameState)
      ensures forall o :: o in old(objects) ==>
        o.glyph == old(o.glyph) && o.color == old(o.color) && o.blocks == old(o.blocks)
        && o.fighter == old(o.fighter) && o.hasAi == old(o.hasAi) && o.name == old(o.name)
      ensures forall o :: o in old(objects) && old(o.fighter) != null ==> old(o.fighter).hp == old(o.fighter.hp)
      ensures player.fighter == old(player.fighter)
    {
      Move(player, dx, dy);
      fovRecompute := true;
    }

    /** `player_move_or_attack(dx, dy)`: attack the first fighter on the target cell, or move there. */
    method PlayerMoveOrAttack(dx: int, dy: int)
      requires player.fighter != null && InGrid(player.x + dx, player.y + dy)
      modifies this`fovRecompute, this`msgs, this`objects, this`gameState, player`x, player`y, player`wait
      modifies ObjectsOf(objects)`glyph, ObjectsOf(objects)`color, ObjectsOf(objects)`blocks
      modifies ObjectsOf(objects)`fighter, ObjectsOf(objects)`hasAi, ObjectsOf(objects)`name
      modifies FightersOf(objects)`hp
      ensures var t := old(FirstFighterAt(objects, player.x + dx, player.y + dy));
        t != null ==>
          OldAttacked(player, old(player.fighter), t, old(t.fighter))
          && player.x == old(player.x) && player.y == old(player.y) && fovRecompute == old(fovRecompute)
      ensures old(FirstFighterAt(objects, player.x + dx, player.y + dy)) == null ==>
        (if old(Blocked(player.x + dx, player.y + dy))
         then player.x == old(player.x) && player.y == old(player.y)
         else player.x == old(player.x) + dx && player.y == old(player.y) + dy)
        && player.wait == player.speed && fovRecompute
        && msgs == old(msgs) && objects == old(objects) && gameState == old(gameState)
      ensures var t := old(FirstFighterAt(objects, player.x + dx, player.y + dy));
        forall o :: o in old(objects) && o != t ==>
          o.glyph == old(o.glyph) && o.color == old(o.color) && o.blocks == old(o.blocks)
          && o.fighter == old(o.fighter) && o.hasAi == old(o.hasAi) && o.name == old(o.name)
      ensures var t := old(FirstFighterAt(objects, player.x + dx, player.y + dy));
        forall o :: o in old(objects) && old(o.fighter) != null && (t == null || old(o.fighter) != old(t.fighter)) ==>
          old(o.fighter).hp == old(o.fighter.hp)
      ensures old(FirstFighterAt(objects, player.x + dx, player.y + dy)) != player ==> player.fighter == old(player.fighter)
    {
      var target := FirstFighterAt(objects, player.x + dx, player.y + dy);
      if target != null {
        PlayerAttack(target);
      } else {
        PlayerStep(dx, dy);
      }
    }
  
    /** The room lies inside the map, so `is_blocked` can index every cell of it. */
    predicate RoomInGrid(room: Rect)
      reads this
    {
      0 <= room.x1 && room.x2 <= tiles.Length0 && 0 <= room.y1 && room.y2 <= tiles.Length1
    }

    /**
     * One monster of `place_objects`: unless (x, y) is blocked, an orc when
     * the roll is below 80 and a troll otherwise is appended, blocking, with
     * a `BasicMonster` AI, `monster_death` and the default speed.
     */
    method PlaceMonster(s: Spawn) returns (placed: GameObject?)
      requires 0 <= s.x < tiles.Length0 && 0 <= s.y < tiles.Length1
      modifies this`objects
      ensures placed == null <==> old(Blocked(s.x, s.y))
      ensures old(Unstacked(objects)) ==> Unstacked(objects)
      ensures placed == null ==> objects == old(objects)
      ensures placed != null ==>
        fresh(placed) && fresh(placed.fighter) && objects == old(objects) + [placed] && Spawned(placed, s)
        && !tiles[s.x, s.y].blocked
    {
      var b := IsBlocked(s.x, s.y);
      if b {
        return null;
      }
      if s.roll < 80 {
        var f := new OldFighter(10, 0, 3, MonsterDeath, DefaultAttackSpeed);
        placed := new GameObject(s.x, s.y, 'o', "orc", DesaturatedGreen, true, f, true, DefaultSpeed, false);
      } else {
        var f := new OldFighter(16, 1, 4, MonsterDeath, DefaultAttackSpeed);
        placed := new GameObject(s.x, s.y, 'T', "troll", DarkerGreen, true, f, true, DefaultSpeed, false);
      }
      objects := objects + [placed];
    }

    /** `objects.append(o)` followed by `o.send_to_back()`, for an object not yet on the list. */
    method AppendAtBack(o: GameObject)
      requires o !in objects
      modifies this`objects
      ensures objects == [o] + old(objects)
    {
      ToFrontOfNewLast(objects, o);
      objects := objects + [o];
      SendToBack(o);
    }

    /**
     * One item of `place_objects`: unless (x, y) is blocked, a healing
     * potion is appended and then sent to the back of the list.
     */
    method PlaceItem(x: int, y: int) returns (placed: GameObject?)
      requires 0 <= x < tiles.Length0 && 0 <= y < tiles.Length1
      modifies this`objects
      ensures placed == null <==> old(Blocked(x, y))
      ensures old(Unstacked(objects)) ==> Unstacked(objects)
      ensures placed == null ==> objects == old(objects)
      ensures placed != null ==>
        fresh(placed) && objects == [placed] + old(objects) && Potion(placed, (x, y)) && !tiles[x, y].blocked
    {
      var b := IsBlocked(x, y);
      if b {
        return null;
      }
      placed := new GameObject(x, y, '!', "healing potion", Violet, false, null, false, DefaultSpeed, true);
      AppendAtBack(placed);
      if old(Unstacked(objects)) {
        UnstackedAppendIdle(old(objects), placed);
        UnstackedPermutation(old(objects) + [placed], objects);
      }
    }

    /**
     * `place_objects(room)` on the given spawn draws: the monsters of the
     * draws `monstersKept` are appended in draw order, then the potions of
     * the draws `itemsKept` are put in front, latest first. Every new object
     * is fresh and stands inside the room on an open tile, and (when it
     * blocks) on a cell no other blocking object holds.
     */
    method PlaceObjects(room: Rect, monsters: seq<Spawn>, items: seq<(int, int)>)
      returns (ghost monstersKept: seq<nat>, ghost monstersAdded: seq<GameObject>,
               ghost itemsKept: seq<nat>, ghost itemsAdded: seq<GameObject>)
      requires RoomInGrid(room)
      requires forall k :: 0 <= k < |monsters| ==> InInterior(room, monsters[k].x, monsters[k].y)
      requires forall k :: 0 <= k < |items| ==> InInterior(room, items[k].0, items[k].1)
      modifies this`objects
      ensures objects == itemsAdded + old(objects) + monstersAdded
      ensures KeptDraws(monstersKept, |monsters|) && |monstersAdded| == |monstersKept|
      ensures KeptDraws(itemsKept, |items|) && |itemsAdded| == |itemsKept|
      ensures forall j :: 0 <= j < |monstersAdded| ==>
        fresh(monstersAdded[j]) && Spawned(monstersAdded[j], monsters[monstersKept[j]])
      ensures forall k :: 0 <= k < |itemsAdded| ==>
        fresh(itemsAdded[k]) && Potion(itemsAdded[k], items[itemsKept[|itemsKept| - 1 - k]])
      ensures forall d :: 0 <= d < |monsters| ==>
        (d in monstersKept <==>
           old(FreeCell(monsters[d].x, monsters[d].y)) && !KeptOn(monsters, monstersKept, d, monsters[d].x, monsters[d].y))
      ensures forall d :: 0 <= d < |items| ==>
        (d in itemsKept <==>
           old(FreeCell(items[d].0, items[d].1)) && !KeptOn(monsters, monstersKept, |monsters|, items[d].0, items[d].1))
      ensures multiset(old(objects)) <= multiset(objects)
      ensures |objects| <= old(|objects|) + |monsters| + |items|
      ensures forall o :: o in objects && o !in old(objects) ==>
        fresh(o) && InInterior(room, o.x, o.y) && !tiles[o.x, o.y].blocked
      ensures old(Unstacked(objects)) ==> Unstacked(objects)
    {
      monstersKept, monstersAdded := PlaceMonsters(room, monsters);
      forall d | 0 <= d < |items|
        ensures FreeCell(items[d].0, items[d].1) <==>
          old(FreeCell(items[d].0, items[d].1)) && !KeptOn(monsters, monstersKept, |monsters|, items[d].0, items[d].1)
      {
        OccupiedAppend(old(objects), monstersAdded, items[d].0, items[d].1);
        OccupiedByKept(monstersAdded, monstersKept, monsters, |monsters|, items[d].0, items[d].1);
      }
      itemsKept, itemsAdded := PlaceItems(room, items);
      assert itemsAdded + old(objects) + monstersAdded == itemsAdded + (old(objects) + monstersAdded);
    }

    /** One draw of the monster loop: `MonstersAt` advances from draw i to draw i + 1. */
    method PlaceMonsterStep(room: Rect, monsters: seq<Spawn>, i: nat, ghost objs0: seq<GameObject>,
                            ghost kept: seq<nat>, ghost added: seq<GameObject>)
      returns (ghost kept': seq<nat>, ghost added': seq<GameObject>)
      requires RoomInGrid(room)
      requires forall k :: 0 <= k < |monsters| ==> InInterior(room, monsters[k].x, monsters[k].y)
      requires i < |monsters| && MonstersAt(objects, objs0, added, kept, monsters, i, room, tiles)
      modifies this`objects
      ensures MonstersAt(objects, objs0, added', kept', monsters, i + 1, room, tiles)
      ensures kept' == if old(FreeCell(monsters[i].x, monsters[i].y)) then kept + [i] else kept
      ensures forall o :: o in added' ==> o in added || fresh(o)
      ensures old(Unstacked(objects)) ==> Unstacked(objects)
    {
      ghost var objs := objects;
      var placed := PlaceMonster(monsters[i]);
      kept', added' := kept, added;
      if placed != null {
        MonstersAtKeep(objs, objs0, added, kept, monsters, i, room, tiles, placed);
        kept', added' := kept + [i], added + [placed];
      } else {
        MonstersAtSkip(objs, objs0, added, kept, monsters, i, room, tiles);
      }
    }

    /**
     * The monster loop of `place_objects`: the draws `kept`, in increasing
     * order, each append the monster they describe (`added`, in draw order);
     * the other draws add nothing.
     */
    method PlaceMonsters(room: Rect, monsters: seq<Spawn>) returns (ghost kept: seq<nat>, ghost added: seq<GameObject>)
      requires RoomInGrid(room)
      requires forall k :: 0 <= k < |monsters| ==> InInterior(room, monsters[k].x, monsters[k].y)
      modifies this`objects
      ensures objects == old(objects) + added && |added| == |kept| && KeptDraws(kept, |monsters|)
      ensures forall d :: 0 <= d < |monsters| ==>
        (d in kept <==> old(FreeCell(monsters[d].x, monsters[d].y)) && !KeptOn(monsters, kept, d, monsters[d].x, monsters[d].y))
      ensures forall j :: 0 <= j < |added| ==> fresh(added[j]) && Spawned(added[j], monsters[kept[j]])
      ensures multiset(old(objects)) <= multiset(objects)
      ensures forall o :: o in objects && o !in old(objects) ==>
        fresh(o) && InInterior(room, o.x, o.y) && !tiles[o.x, o.y].blocked
      ensures old(Unstacked(objects)) ==> Unstacked(objects)
    {
      ghost var open0 := OpenDraws(SpawnCells(monsters));
      kept, added := PlaceMonsterDraws(room, monsters, open0);
      MonstersAtDone(objects, old(objects), added, kept, monsters, room, tiles);
      KeepsOpenMonstersDone(monsters, open0, kept);
      forall d | 0 <= d < |monsters|
        ensures d in open0 <==> old(FreeCell(monsters[d].x, monsters[d].y))
      {
        assert old(OpenDraw(open0, SpawnCells(monsters), d));
      }
      forall j | 0 <= j < |added|
        ensures fresh(added[j])
      {
        assert added[j] in added;
      }
    }

    /** The loop of `PlaceMonsters`, over the draws whose cells were free (`open0`) when it began. */
    method PlaceMonsterDraws(room: Rect, monsters: seq<Spawn>, ghost open0: set<int>)
      returns (ghost kept: seq<nat>, ghost added: seq<GameObject>)
      requires RoomInGrid(room)
      requires forall k :: 0 <= k < |monsters| ==> InInterior(room, monsters[k].x, monsters[k].y)
      requires forall d :: 0 <= d < |monsters| ==> OpenDraw(open0, SpawnCells(monsters), d)
      modifies this`objects
      ensures MonstersAt(objects, old(objects), added, kept, monsters, |monsters|, room, tiles)
      ensures KeepsOpenMonsters(monsters, open0, kept, |monsters|)
      ensures forall o :: o in added ==> fresh(o)
      ensures old(Unstacked(objects)) ==> Unstacked(objects)
    {
      kept, added := [], [];
      var i := 0;
      while i < |monsters|
        invariant MonstersAt(objects, old(objects), added, kept, monsters, i, room, tiles)
        invariant KeepsOpenMonsters(monsters, open0, kept, i)
        invariant forall o :: o in added ==> fresh(o)
        invariant old(Unstacked(objects)) ==> Unstacked(objects)
        decreases |monsters| - i
      {
        assert old(OpenDraw(open0, SpawnCells(monsters), i));
        assert FreeDraw(open0, SpawnCells(monsters), old(objects), i);
        MonsterDrawNext(room, monsters, i, old(objects), open0, kept, added);
        kept, added := PlaceMonsterStep(room, monsters, i, old(objects), kept, added);
        i := i + 1;
      }
    }

    /** One draw of the item loop: `ItemsAt` advances from draw i to draw i + 1. */
    method PlaceItemStep(room: Rect, items: seq<(int, int)>, i: nat, ghost objs0: seq<GameObject>,
                         ghost kept: seq<nat>, ghost added: seq<GameObject>)
      returns (ghost kept': seq<nat>, ghost added': seq<GameObject>)
      requires RoomInGrid(room)
      requires forall k :: 0 <= k < |items| ==> InInterior(room, items[k].0, items[k].1)
      requires i < |items| && ItemsAt(objects, objs0, added, kept, items, i, room, tiles)
      modifies this`objects
      ensures ItemsAt(objects, objs0, added', kept', items, i + 1, room, tiles)
      ensures kept' == if old(FreeCell(items[i].0, items[i].1)) then kept + [i] else kept
      ensures forall o :: o in added' ==> o in added || fresh(o)
      ensures old(Unstacked(objects)) ==> Unstacked(objects)
    {
      ghost var objs := objects;
      var placed := PlaceItem(items[i].0, items[i].1);
      kept', added' := kept, added;
      if placed != null {
        ItemsAtKeep(objs, objs0, added, kept, items, i, room, tiles, placed);
        kept', added' := kept + [i], [placed] + added;
      } else {
        ItemsAtSkip(objs, objs0, added, kept, items, i, room, tiles);
      }
    }

    /** The loop of `PlaceItems`, over the draws whose cells were free (`open0`) when it began. */
    method PlaceItemDraws(room: Rect, items: seq<(int, int)>, ghost open0: set<int>)
      returns (ghost kept: seq<nat>, ghost added: seq<GameObject>)
      requires RoomInGrid(room)
      requires forall k :: 0 <= k < |items| ==> InInterior(room, items[k].0, items[k].1)
      requires forall d :: 0 <= d < |items| ==> OpenDraw(open0, items, d)
      modifies this`objects
      ensures ItemsAt(objects, old(objects), added, kept, items, |items|, room, tiles)
      ensures KeepsOpenItems(open0, kept, |items|)
      ensures forall o :: o in added ==> fresh(o)
      ensures old(Unstacked(objects)) ==> Unstacked(objects)
    {
      kept, added := [], [];
      var i := 0;
      while i < |items|
        invariant ItemsAt(objects, old(objects), added, kept, items, i, room, tiles)
        invariant KeepsOpenItems(open0, kept, i)
        invariant forall o :: o in added ==> fresh(o)
        invariant old(Unstacked(objects)) ==> Unstacked(objects)
        decreases |items| - i
      {
        assert old(OpenDraw(open0, items, i));
        assert FreeDraw(open0, items, old(objects), i);
        ItemDrawNext(room, items, i, old(objects), open0, kept, added);
        kept, added := PlaceItemStep(room, items, i, old(objects), kept, added);
        i := i + 1;
      }
    }

    /**
     * The item loop of `place_objects`: the draws `kept`, in increasing
     * order, each put a healing potion at the front of the list, so the
     * potions (`added`) end up before the old objects, latest first.
     */
    method PlaceItems(room: Rect, items: seq<(int, int)>) returns (ghost kept: seq<nat>, ghost added: seq<GameObject>)
      requires RoomInGrid(room)
      requires forall k :: 0 <= k < |items| ==> InInterior(room, items[k].0, items[k].1)
      modifies this`objects
      ensures objects == added + old(objects) && |added| == |kept| && KeptDraws(kept, |items|)
      ensures forall d :: 0 <= d < |items| ==> (d in kept <==> old(FreeCell(items[d].0, items[d].1)))
      ensures forall k :: 0 <= k < |added| ==> fresh(added[k]) && Potion(added[k], items[kept[|kept| - 1 - k]])
      ensures multiset(old(objects)) <= multiset(objects)
      ensures forall o :: o in objects && o !in old(objects) ==>
        fresh(o) && InInterior(room, o.x, o.y) && !tiles[o.x, o.y].blocked
      ensures old(Unstacked(objects)) ==> Unstacked(objects)
    {
      ghost var open0 := OpenDraws(items);
      kept, added := PlaceItemDraws(room, items, open0);
      ItemsAtDone(objects, old(objects), added, kept, items, room, tiles);
      forall d | 0 <= d < |items|
        ensures d in kept <==> old(FreeCell(items[d].0, items[d].1))
      {
        assert old(OpenDraw(open0, items, d));
      }
      forall k | 0 <= k < |added|
        ensures fresh(added[k])
      {
        assert added[k] in added;
      }
    }

    /**
     * The two tunnels that join centre `p` to centre `n`: horizontal then
     * vertical when the coin is 1, vertical then horizontal otherwise.
     */
    method Connect(p: (int, int), n: (int, int), coin: int)
      requires Valid()
      requires 0 <= p.0 < MapWidth && 0 <= n.0 < MapWidth && 0 <= p.1 < MapHeight && 0 <= n.1 < MapHeight
      modifies tiles
      ensures forall i, j :: 0 <= i < tiles.Length0 && 0 <= j < tiles.Length1 ==>
        tiles[i, j] == if OnCorridor(p, n, coin == 1, i, j) then Tunnel(old(tiles[i, j])) else old(tiles[i, j])
    {
      if coin == 1 {
        CreateHTunnel(tiles, p.0, n.0, p.1);
        CreateVTunnel(tiles, p.1, n.1, n.0);
      } else {
        CreateVTunnel(tiles, p.1, n.1, p.0);
        CreateHTunnel(tiles, p.0, n.0, n.1);
      }
    }

    /**
     * The `if not failed` branch of `make_map` for the draw `d`: carve the
     * room, place its objects, then put the player at the centre of the first
     * room or join the centre to the previous room's with a corridor.
     */
    method AddRoom(accepted: seq<RoomDraw>, d: RoomDraw)
      requires Valid() && DrawInRange(d) && Carved(tiles, accepted)
      requires forall k :: 0 <= k < |accepted| ==> DrawInRange(accepted[k])
      modifies tiles, this`objects, player`x, player`y
      ensures Carved(tiles, accepted + [d])
      ensures accepted == [] ==> (player.x, player.y) == Center(RectOf(d))
      ensures accepted != [] ==> player.x == old(player.x) && player.y == old(player.y)
      ensures multiset(old(objects)) <= multiset(objects)
      ensures forall o :: o in objects && o !in old(objects) ==>
        fresh(o) && InInterior(RectOf(d), o.x, o.y) && !tiles[o.x, o.y].blocked
    {
      var room := RectOf(d);
      CreateRoom(tiles, room);
      var monstersKept, monstersAdded, itemsKept, itemsAdded := PlaceObjects(room, d.monsters, d.items);
      JoinRoom(accepted, d);
    }

    /**
     * The end of the `if not failed` branch of `make_map`, once the room of
     * `d` is carved: the player goes to the centre of the first room, and
     * every later room is joined to the previous one by a corridor.
     */
    method JoinRoom(accepted: seq<RoomDraw>, d: RoomDraw)
      requires Valid() && DrawInRange(d)
      requires forall k :: 0 <= k < |accepted| ==> DrawInRange(accepted[k])
      requires forall i, j :: 0 <= i < tiles.Length0 && 0 <= j < tiles.Length1 ==>
        tiles[i, j] == if Open(accepted, i, j) || InInterior(RectOf(d), i, j) then Floor else Wall
      modifies tiles, player`x, player`y
      ensures Carved(tiles, accepted + [d])
      ensures forall i, j :: 0 <= i < tiles.Length0 && 0 <= j < tiles.Length1 && InInterior(RectOf(d), i, j) ==>
        tiles[i, j] == Floor
      ensures accepted == [] ==> (player.x, player.y) == Center(RectOf(d))
      ensures accepted != [] ==> player.x == old(player.x) && player.y == old(player.y)
    {
      var (newX, newY) := Center(RectOf(d));
      if |accepted| == 0 {
        player.x := newX;
        player.y := newY;
      } else {
        Connect(Center(RectOf(accepted[|accepted| - 1])), (newX, newY), d.coin);
      }
      CarvedSnoc(tiles, accepted, d);
    }

    /**
     * One pass of the `make_map` loop on the draw `d`: the room is kept, and
     * its objects, room and corridor added, exactly when it intersects none
     * of the rooms kept so far.
     */
    method TryRoom(accepted: seq<RoomDraw>, d: RoomDraw) returns (next: seq<RoomDraw>)
      requires Valid() && DrawInRange(d) && Carved(tiles, accepted)
      requires forall k :: 0 <= k < |accepted| ==> DrawInRange(accepted[k])
      requires |accepted| > 0 ==> (player.x, player.y) == Center(RectOf(accepted[0]))
      modifies tiles, this`objects, player`x, player`y
      ensures next == if Collides(d, accepted) then accepted else accepted + [d]
      ensures Carved(tiles, next) && forall k :: 0 <= k < |next| ==> DrawInRange(next[k])
      ensures |next| > 0 ==> (player.x, player.y) == Center(RectOf(next[0]))
      ensures multiset(old(objects)) <= multiset(objects)
      ensures forall o :: o in objects && o !in old(objects) ==> fresh(o) && InSomeRoom(next, o.x, o.y)
      ensures forall o :: o in old(objects) && o != player ==> o.x == old(o.x) && o.y == old(o.y)
      ensures forall x, y :: InSomeRoom(accepted, x, y) ==> InSomeRoom(next, x, y)
      ensures Collides(d, accepted) ==> objects == old(objects) && player.x == old(player.x) && player.y == old(player.y)
    {
      var failed := Overlaps(RectOf(d), accepted);
      if failed {
        return accepted;
      }
      AddRoom(accepted, d);
      forall o | o in objects && o !in old(objects)
        ensures InSomeRoom(accepted + [d], o.x, o.y)
      {
        InSomeRoomSnoc(accepted, d, o.x, o.y);
      }
      forall x, y | InSomeRoom(accepted, x, y)
        ensures InSomeRoom(accepted + [d], x, y)
      {
        InSomeRoomSnoc(accepted, d, x, y);
      }
      next := accepted + [d];
    }

    /**
     * The room loop of `make_map` on an all-wall map: exactly the rooms
     * `Accepted(draws)` and the corridors between consecutive ones are
     * carved, the player stands at the centre of the first room, and the
     * objects of the accepted rooms are added inside them.
     */
    method CarveRooms(draws: seq<RoomDraw>) returns (accepted: seq<RoomDraw>)
      requires |draws| == MaxRooms && forall r :: 0 <= r < |draws| ==> DrawInRange(draws[r])
      requires Valid() && Carved(tiles, [])
      modifies tiles, this`objects, player`x, player`y
      ensures Valid()
      ensures accepted == Accepted(draws[..MaxRooms]) && Carved(tiles, accepted)
      ensures |accepted| > 0 ==> (player.x, player.y) == Center(RectOf(accepted[0]))
      ensures multiset(old(objects)) <= multiset(objects)
      ensures forall o :: o in objects && o !in old(objects) ==> fresh(o) && InSomeRoom(accepted, o.x, o.y)
    {
      accepted := [];
      var r := 0;
      while r < MaxRooms
        invariant 0 <= r <= MaxRooms && Valid()
        invariant accepted == Accepted(draws[..r]) && Carved(tiles, accepted)
        invariant forall k :: 0 <= k < |accepted| ==> DrawInRange(accepted[k])
        invariant |accepted| > 0 ==> (player.x, player.y) == Center(RectOf(accepted[0]))
        invariant multiset(old(objects)) <= multiset(objects)
        invariant forall o :: o in objects && o !in old(objects) ==> fresh(o) && InSomeRoom(accepted, o.x, o.y)
      {
        AcceptedPrefixStep(draws, r);
        accepted := TryRoom(accepted, draws[r]);
        r := r + 1;
      }
    }

    /**
     * `make_map` on MAX_ROOMS draws: a fresh all-wall map in which exactly
     * the rooms `Accepted(draws)` and the corridors between consecutive ones
     * are carved, the player at the centre of the first room, and the
     * objects of the accepted rooms added inside them.
     */
    method MakeMap(draws: seq<RoomDraw>) returns (accepted: seq<RoomDraw>)
      requires |draws| == MaxRooms && forall r :: 0 <= r < |draws| ==> DrawInRange(draws[r])
      modifies this`tiles, this`objects, player`x, player`y
      ensures Valid() && fresh(tiles)
      ensures accepted == Accepted(draws) && Carved(tiles, accepted)
      ensures |accepted| > 0 && (player.x, player.y) == Center(RectOf(accepted[0]))
      ensures multiset(old(objects)) <= multiset(objects)
      ensures forall o :: o in objects && o !in old(objects) ==> fresh(o) && InSomeRoom(accepted, o.x, o.y)
    {
      tiles := FreshMap();
      accepted := CarveRooms(draws);
      assert draws[..MaxRooms] == draws;
      AcceptedShape(draws);
    }
  }
}
