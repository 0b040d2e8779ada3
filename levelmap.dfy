/**
 * levelmap.py: the map cell, the room rectangle and the three carvers that
 * open rooms and corridors in the 2-D tile grid `level_map[x][y]`.
 * The grid is an `array2<Tile>` whose first index is x and second is y.
 */
module LevelMap {
  import opened Wrappers

  /** A map cell. Each cell of the grid is its own value, so carving one cell touches no other. */
  datatype Tile = Tile(blocked: bool, blockSight: bool, explored: bool)

  /** `Tile(blocked, block_sight=None)`: unexplored; sight blocking defaults to `blocked`. */
  function NewTile(blocked: bool, blockSight: Option<bool>): (t: Tile)
    ensures !t.explored && t.blocked == blocked
    ensures blockSight == None ==> t.blockSight == blocked
    ensures blockSight != None ==> t.blockSight == blockSight.value
  {
    Tile(blocked, if blockSight.Some? then blockSight.value else blocked, false)
  }

  /** `Tile.tunnel`: the cell becomes passable and see-through; its memory is kept. */
  function Tunnel(t: Tile): (r: Tile)
    ensures !r.blocked && !r.blockSight && r.explored == t.explored
  {
    t.(blocked := false, blockSight := false)
  }

  /** Carving twice is carving once. */
  lemma TunnelIdempotent(t: Tile)
    ensures Tunnel(Tunnel(t)) == Tunnel(t)
  {
  }

  /** A room footprint with inclusive corners (x1, y1) and (x2, y2). */
  datatype Rect = Rect(x1: int, y1: int, x2: int, y2: int)

  /** `Rect(x, y, w, h)` */
  function MakeRect(x: int, y: int, w: int, h: int): (r: Rect)
    ensures r.x1 == x && r.y1 == y
    ensures r.x2 - r.x1 == w && r.y2 - r.y1 == h
  {
    Rect(x, y, x + w, y + h)
  }

  /** A rectangle built with non-negative width and height. */
  predicate WellFormed(r: Rect)
  {
    r.x1 <= r.x2 && r.y1 <= r.y2
  }

  /** Cell (x, y) lies on the rectangle or its border. */
  predicate InClosed(r: Rect, x: int, y: int)
  {
    r.x1 <= x <= r.x2 && r.y1 <= y <= r.y2
  }

  /** Cell (x, y) lies strictly inside the rectangle: the cells `create_room` opens. */
  predicate InInterior(r: Rect, x: int, y: int)
  {
    r.x1 < x < r.x2 && r.y1 < y < r.y2
  }

  /**
   * `Rect.center`: Python 2 `/` on ints is floor division, and Dafny's `/`
   * by the positive constant 2 is floor division too.
   */
  function Center(r: Rect): (c: (int, int))
    ensures 2 * c.0 <= r.x1 + r.x2 < 2 * c.0 + 2
    ensures 2 * c.1 <= r.y1 + r.y2 < 2 * c.1 + 2
    ensures WellFormed(r) ==> InClosed(r, c.0, c.1)
  {
    ((r.x1 + r.x2) / 2, (r.y1 + r.y2) / 2)
  }

  /** `Rect.intersect`: inclusive-bounds overlap test. */
  predicate Intersect(a: Rect, b: Rect)
  {
    a.x1 <= b.x2 && a.x2 >= b.x1 && a.y1 <= b.y2 && a.y2 >= b.y1
  }

  lemma IntersectSymmetric(a: Rect, b: Rect)
    ensures Intersect(a, b) <==> Intersect(b, a)
  {
  }

  lemma IntersectReflexive(a: Rect)
    requires WellFormed(a)
    ensures Intersect(a, a)
  {
  }

  /**
   * For well-formed rectangles, `intersect` holds exactly when some cell
   * lies on both rectangles, borders included: rooms that only share an edge
   * or a corner intersect, and rooms that do not intersect share no cell.
   */
  lemma IntersectIffSharedCell(a: Rect, b: Rect)
    requires WellFormed(a) && WellFormed(b)
    ensures Intersect(a, b) <==> exists x, y :: InClosed(a, x, y) && InClosed(b, x, y)
  {
    if Intersect(a, b) {
      var x := if a.x1 < b.x1 then b.x1 else a.x1;
      var y := if a.y1 < b.y1 then b.y1 else a.y1;
      assert InClosed(a, x, y) && InClosed(b, x, y);
    }
  }

  /** Every cell `create_room` would open lies inside a grid of the given size. */
  predicate InteriorFits(r: Rect, width: int, height: int)
  {
    (r.x1 + 1 < r.x2 && r.y1 + 1 < r.y2) ==>
      (0 <= r.x1 + 1 && r.x2 <= width && 0 <= r.y1 + 1 && r.y2 <= height)
  }

  function Min(a: int, b: int): int { if a <= b then a else b }
  function Max(a: int, b: int): int { if a <= b then b else a }

  /** Cell (i, j) is on the horizontal corridor of row y between columns x1 and x2. */
  predicate OnHTunnel(x1: int, x2: int, y: int, i: int, j: int)
  {
    j == y && Min(x1, x2) <= i <= Max(x1, x2)
  }

  /** Cell (i, j) is on the vertical corridor of column x between rows y1 and y2. */
  predicate OnVTunnel(y1: int, y2: int, x: int, i: int, j: int)
  {
    i == x && Min(y1, y2) <= j <= Max(y1, y2)
  }

  /** `create_room`: opens exactly the interior cells of `room`; borders and all other cells are unchanged. */
  method CreateRoom(grid: array2<Tile>, room: Rect)
    requires InteriorFits(room, grid.Length0, grid.Length1)
    modifies grid
    ensures forall i, j :: 0 <= i < grid.Length0 && 0 <= j < grid.Length1 ==>
      grid[i, j] == if InInterior(room, i, j) then Tunnel(old(grid[i, j])) else old(grid[i, j])
  {
    var x := room.x1 + 1;
    while x < room.x2
      invariant room.x1 + 1 <= x <= Max(room.x1 + 1, room.x2)
      invariant forall i, j :: 0 <= i < grid.Length0 && 0 <= j < grid.Length1 ==>
        grid[i, j] == if room.x1 < i < x && room.y1 < j < room.y2 then Tunnel(old(grid[i, j])) else old(grid[i, j])
    {
      var y := room.y1 + 1;
      while y < room.y2
        invariant room.y1 + 1 <= y <= Max(room.y1 + 1, room.y2)
        invariant forall i, j :: 0 <= i < grid.Length0 && 0 <= j < grid.Length1 ==>
          grid[i, j] == if (room.x1 < i < x && room.y1 < j < room.y2) || (i == x && room.y1 < j < y)
                        then Tunnel(old(grid[i, j])) else old(grid[i, j])
      {
        grid[x, y] := Tunnel(grid[x, y]);
        y := y + 1;
      }
      x := x + 1;
    }
  }

  /**
   * `create_h_tunnel`: opens every cell of row y from min(x1, x2) to
   * max(x1, x2) inclusive, whichever order the ends are given in, and nothing else.
   */
  method CreateHTunnel(grid: array2<Tile>, x1: int, x2: int, y: int)
    requires 0 <= Min(x1, x2) && Max(x1, x2) < grid.Length0 && 0 <= y < grid.Length1
    modifies grid
    ensures forall i, j :: 0 <= i < grid.Length0 && 0 <= j < grid.Length1 ==>
      grid[i, j] == if OnHTunnel(x1, x2, y, i, j) then Tunnel(old(grid[i, j])) else old(grid[i, j])
  {
    var x := Min(x1, x2);
    while x <= Max(x1, x2)
      invariant Min(x1, x2) <= x <= Max(x1, x2) + 1
      invariant forall i, j :: 0 <= i < grid.Length0 && 0 <= j < grid.Length1 ==>
        grid[i, j] == if j == y && Min(x1, x2) <= i < x then Tunnel(old(grid[i, j])) else old(grid[i, j])
    {
      grid[x, y] := Tunnel(grid[x, y]);
      x := x + 1;
    }
  }

  /**
   * `create_v_tunnel`: opens every cell of column x from min(y1, y2) to
   * max(y1, y2) inclusive, whichever order the ends are given in, and nothing else.
   */
  method CreateVTunnel(grid: array2<Tile>, y1: int, y2: int, x: int)
    requires 0 <= Min(y1, y2) && Max(y1, y2) < grid.Length1 && 0 <= x < grid.Length0
    modifies grid
    ensures forall i, j :: 0 <= i < grid.Length0 && 0 <= j < grid.Length1 ==>
      grid[i, j] == if OnVTunnel(y1, y2, x, i, j) then Tunnel(old(grid[i, j])) else old(grid[i, j])
  {
    var y := Min(y1, y2);
    while y <= Max(y1, y2)
      invariant Min(y1, y2) <= y <= Max(y1, y2) + 1
      invariant forall i, j :: 0 <= i < grid.Length0 && 0 <= j < grid.Length1 ==>
        grid[i, j] == if i == x && Min(y1, y2) <= j < y then Tunnel(old(grid[i, j])) else old(grid[i, j])
    {
      grid[x, y] := Tunnel(grid[x, y]);
      y := y + 1;
    }
  }
}
