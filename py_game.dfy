/** game.py's Game: world generation, the spawn search of create_player, and the
    movement, jump and mining commands of handle_input. */
module PyGame {
  import opened Blocks
  import opened Terrain
  import opened PyPlayer

  // ---------------------------------------------------------------------
  // World generation

  /** The tree of generate_world standing on row y of column x: a trunk of th wood cells
      going up from row y, then the five canopy rows of LEAF_SIZES above it, leaves
      overwriting whatever is there; cells above row 0 or beside the grid are skipped. */
  method StampTree(world: array2<Option<Kind>>, x: int, y: int, th: int)
    requires Shaped(world) && 0 <= x < COLS && y < ROWS && 0 <= th
    modifies world
    ensures forall r, c :: 0 <= r < ROWS && 0 <= c < COLS ==>
              world[r, c] == if InCanopy(x, y, th, r, c) then Some(Leaves)
                             else if InTrunk(x, y, th, r, c) then Some(Wood)
                             else old(world[r, c])
  {
    for treeY := 0 to th
      invariant forall r, c :: 0 <= r < ROWS && 0 <= c < COLS ==>
                  world[r, c] == if c == x && y - treeY < r <= y && 0 <= r then Some(Wood)
                                 else old(world[r, c])
    {
      if y - treeY >= 0 {
        world[y - treeY, x] := Some(Wood);
      }
    }

    for leafY := 0 to |LEAF_SIZES|
      invariant forall r, c :: 0 <= r < ROWS && 0 <= c < COLS ==>
                  world[r, c] == if InCanopy(x, y, th, r, c) && y - th - r < leafY then Some(Leaves)
                                 else if InTrunk(x, y, th, r, c) then Some(Wood)
                                 else old(world[r, c])
    {
      var leafWidth := LEAF_SIZES[leafY];
      var leafStart := if 0 > x - leafWidth / 2 then 0 else x - leafWidth / 2;
      var leafEnd := if COLS < x + leafWidth / 2 + 1 then COLS else x + leafWidth / 2 + 1;
      for leafX := leafStart to leafEnd
        invariant forall r, c :: 0 <= r < ROWS && 0 <= c < COLS ==>
                    world[r, c] == if InCanopy(x, y, th, r, c)
                                        && (y - th - r < leafY || (y - th - r == leafY && c < leafX))
                                   then Some(Leaves)
                                   else if InTrunk(x, y, th, r, c) then Some(Wood)
                                   else old(world[r, c])
      {
        if y - th - leafY >= 0 {
          world[y - th - leafY, leafX] := Some(Leaves);
        }
      }
    }
  }

  /** The first loop of generate_world: base_heights[x] is the clamped random walk. */
  method BaseHeights(d: Draws) returns (baseHeights: array<int>)
    requires WellFormed(d)
    ensures fresh(baseHeights) && baseHeights.Length == COLS
    ensures forall x :: 0 <= x < COLS ==> baseHeights[x] == HeightAt(d.deltas, x)
  {
    baseHeights := new int[COLS](_ => ROWS / 2);
    for x := 0 to COLS
      invariant forall i {:trigger baseHeights[i]} :: 0 <= i < x ==> baseHeights[i] == HeightAt(d.deltas, i)
      invariant forall i :: x <= i < COLS ==> baseHeights[i] == ROWS / 2
    {
      if x > 0 {
        var raw := baseHeights[x - 1] + d.deltas[x];
        var capped := if raw < ROWS * 3 / 4 then raw else ROWS * 3 / 4;
        assert HeightAt(d.deltas, x) == Clamp(raw);
        baseHeights[x] := if ROWS / 4 > capped then ROWS / 4 else capped;
      } else {
        assert baseHeights[0] == HeightAt(d.deltas, 0);
      }
    }
  }

  /** One iteration of the column pass of generate_world: the ground layers of column x
      and, on a lucky surface, its tree. */
  method FillColumn(d: Draws, world: array2<Option<Kind>>, x: int, height: int)
    requires WellFormed(d) && Shaped(world) && 0 <= x < COLS && height == HeightAt(d.deltas, x)
    requires forall r, c :: 0 <= r < ROWS && 0 <= c < COLS ==> world[r, c] == Partial(d, r, c, x)
    modifies world
    ensures forall r, c :: 0 <= r < ROWS && 0 <= c < COLS ==> world[r, c] == Partial(d, r, c, x + 1)
  {
    var treeChance := d.treeRolls[x];
    for y := 0 to ROWS
      invariant forall r, c :: 0 <= r < ROWS && 0 <= c < COLS ==> world[r, c] == ColumnPass(d, x, y, r, c)
    {
      if y == height {
        SurfaceCell(d, world, x, y, treeChance);
      } else {
        if y > height {
          var blockType := GroundKind(y, height, d.oreRolls[x][y]);
          if world[y, x] == None {
            world[y, x] := Some(blockType);
          }
        }
        forall r, c | 0 <= r < ROWS && 0 <= c < COLS {
          PassStep(d, x, y, r, c);
        }
      }
    }
  }

  /** Row y == height of the column pass: the tree on a lucky surface, then the surface
      dirt unless the trunk base already fills the cell. */
  method SurfaceCell(d: Draws, world: array2<Option<Kind>>, x: int, y: int, treeChance: real)
    requires WellFormed(d) && Shaped(world) && 0 <= x < COLS && y == HeightAt(d.deltas, x)
    requires treeChance == d.treeRolls[x]
    requires forall r, c :: 0 <= r < ROWS && 0 <= c < COLS ==> world[r, c] == Partial(d, r, c, x)
    modifies world
    ensures forall r, c :: 0 <= r < ROWS && 0 <= c < COLS ==> world[r, c] == ColumnPass(d, x, y + 1, r, c)
  {
    var blockType := GroundKind(y, y, d.oreRolls[x][y]);
    if treeChance < TREE_CHANCE {
      StampTree(world, x, y, d.treeHeights[x]);
      // the trunk base now fills the surface cell
      assert InTrunk(x, y, d.treeHeights[x], y, x);
    }
    if world[y, x] == None {
      world[y, x] := Some(blockType);
    }
    if treeChance < TREE_CHANCE {
      TreeSurfaceFilled(d, world, x, y);
    } else {
      BareSurfaceFilled(d, world, x, y);
    }
  }

  /** The surface row with a tree, cell by cell. */
  lemma TreeSurfaceFilled(d: Draws, world: array2<Option<Kind>>, x: int, y: int)
    requires WellFormed(d) && Shaped(world) && 0 <= x < COLS && y == HeightAt(d.deltas, x)
    requires HasTree(d, x)
    requires forall r, c :: 0 <= r < ROWS && 0 <= c < COLS ==>
               world[r, c] == if InCanopy(x, y, d.treeHeights[x], r, c) then Some(Leaves)
                              else if InTrunk(x, y, d.treeHeights[x], r, c) then Some(Wood)
                              else Partial(d, r, c, x)
    ensures forall r, c :: 0 <= r < ROWS && 0 <= c < COLS ==> world[r, c] == ColumnPass(d, x, y + 1, r, c)
  {
    forall r, c | 0 <= r < ROWS && 0 <= c < COLS
      ensures world[r, c] == ColumnPass(d, x, y + 1, r, c)
    {
      SurfaceStep(d, x, y, r, c);
    }
  }

  /** The surface row without a tree, cell by cell. */
  lemma BareSurfaceFilled(d: Draws, world: array2<Option<Kind>>, x: int, y: int)
    requires WellFormed(d) && Shaped(world) && 0 <= x < COLS && y == HeightAt(d.deltas, x)
    requires !HasTree(d, x)
    requires world[y, x] == Some(Dirt)
    requires forall r, c :: 0 <= r < ROWS && 0 <= c < COLS && (r != y || c != x) ==>
               world[r, c] == Partial(d, r, c, x)
    ensures forall r, c :: 0 <= r < ROWS && 0 <= c < COLS ==> world[r, c] == ColumnPass(d, x, y + 1, r, c)
  {
    forall r, c | 0 <= r < ROWS && 0 <= c < COLS
      ensures world[r, c] == ColumnPass(d, x, y + 1, r, c)
    {
      SurfaceStep(d, x, y, r, c);
    }
  }

  /** generate_world: the clamped random walk of surface heights, the column pass (ground
      layers, and the tree of a lucky surface, which keeps its trunk base where the surface
      dirt would go), then the bottom row of unbreakable blocks. */
  method GenerateWorld(d: Draws) returns (world: array2<Option<Kind>>)
    requires WellFormed(d)
    ensures fresh(world) && Shaped(world)
    ensures forall r, c :: 0 <= r < ROWS && 0 <= c < COLS ==> world[r, c] == Generated(d, r, c)
  {
    world := new Option<Kind>[ROWS, COLS]((_, _) => None);
    var baseHeights := BaseHeights(d);
    for x := 0 to COLS
      invariant forall r, c :: 0 <= r < ROWS && 0 <= c < COLS ==> world[r, c] == Partial(d, r, c, x)
      invariant forall i :: 0 <= i < COLS ==> baseHeights[i] == HeightAt(d.deltas, i)
    {
      FillColumn(d, world, x, baseHeights[x]);
    }
    AddBedrock(world);
  }

  /** The last loop of generate_world: row ROWS - 1 becomes unbreakable in every column. */
  method AddBedrock(world: array2<Option<Kind>>)
    requires Shaped(world)
    modifies world
    ensures forall r, c :: 0 <= r < ROWS && 0 <= c < COLS ==>
              world[r, c] == if r == ROWS - 1 then Some(Unbreakable) else old(world[r, c])
  {
    for x := 0 to COLS
      invariant forall r, c :: 0 <= r < ROWS && 0 <= c < COLS ==>
                  world[r, c] == if r == ROWS - 1 && c < x then Some(Unbreakable) else old(world[r, c])
    {
      world[ROWS - 1, x] := Some(Unbreakable);
    }
  }

  // ---------------------------------------------------------------------
  // Spawn search

  /** create_player's test for a tree-top spawn: a dirt cell (x, y) below row 0 with a
      wood cell right above it. */
  predicate IsTreeSpawn(world: array2<Option<Kind>>, x: int, y: int)
    requires Shaped(world)
    reads world
  {
    0 <= x < COLS && 0 < y < ROWS && world[y, x] == Some(Dirt) && world[y - 1, x] == Some(Wood)
  }

  /** (x, y) comes before (x', y') in the scan order of create_player: column by column,
      top to bottom within a column. */
  predicate ScanBefore(p: Pos, q: Pos) {
    p.0 < q.0 || (p.0 == q.0 && p.1 < q.1)
  }

  /** The tree spawns among rows 0 .. n - 1 of column x, top to bottom. */
  function ColumnSpawns(world: array2<Option<Kind>>, x: int, n: int): seq<Pos>
    requires Shaped(world) && 0 <= x < COLS && 0 <= n <= ROWS
    reads world
    decreases n
  {
    if n == 0 then []
    else ColumnSpawns(world, x, n - 1) + (if IsTreeSpawn(world, x, n - 1) then [(x, n - 1)] else [])
  }

  /** ColumnSpawns holds exactly the tree spawns of its rows, each once, top to bottom. */
  lemma {:induction false} ColumnSpawnsExact(world: array2<Option<Kind>>, x: int, n: int)
    requires Shaped(world) && 0 <= x < COLS && 0 <= n <= ROWS
    ensures var s := ColumnSpawns(world, x, n);
            forall p :: p in s <==> IsTreeSpawn(world, p.0, p.1) && p.0 == x && p.1 < n
    ensures var s := ColumnSpawns(world, x, n);
            forall i, j :: 0 <= i < j < |s| ==> s[i].0 == x && s[i].1 < s[j].1
    decreases n
  {
    if n > 0 {
      ColumnSpawnsExact(world, x, n - 1);
    }
  }

  /** The tree spawns of columns 0 .. n - 1, in scan order. */
  function TreeSpawns(world: array2<Option<Kind>>, n: int): seq<Pos>
    requires Shaped(world) && 0 <= n <= COLS
    reads world
    decreases n
  {
    if n == 0 then [] else TreeSpawns(world, n - 1) + ColumnSpawns(world, n - 1, ROWS)
  }

  /** TreeSpawns holds exactly the tree spawns of its columns, each once, in scan order. */
  lemma {:induction false} TreeSpawnsExact(world: array2<Option<Kind>>, n: int)
    requires Shaped(world) && 0 <= n <= COLS
    ensures var s := TreeSpawns(world, n);
            forall p :: p in s <==> IsTreeSpawn(world, p.0, p.1) && p.0 < n
    ensures var s := TreeSpawns(world, n);
            forall i, j :: 0 <= i < j < |s| ==> ScanBefore(s[i], s[j])
    decreases n
  {
    if n > 0 {
      TreeSpawnsExact(world, n - 1);
      ColumnSpawnsExact(world, n - 1, ROWS);
    }
  }

  /** The first loop of create_player: every tree spawn, in scan order. */
  method SpawnLocations(world: array2<Option<Kind>>) returns (spawns: seq<Pos>)
    requires Shaped(world)
    ensures spawns == TreeSpawns(world, COLS)
  {
    spawns := [];
    for x := 0 to COLS
      invariant spawns == TreeSpawns(world, x)
    {
      ghost var before := TreeSpawns(world, x);
      for y := 0 to ROWS
        invariant spawns == before + ColumnSpawns(world, x, y)
      {
        ghost var found := ColumnSpawns(world, x, y);
        if world[y, x] != None && world[y, x].value == Dirt && y > 0
           && world[y - 1, x] != None && world[y - 1, x].value == Wood {
          spawns := spawns + [(x, y)];
          assert before + found + [(x, y)] == before + (found + [(x, y)]);
        }
      }
    }
  }

  /** The downward scan of create_player's fallback: the first occupied row of column col. */
  method TopOfColumn(world: array2<Option<Kind>>, col: int) returns (top: Option<int>)
    requires Shaped(world) && 0 <= col < COLS
    ensures top == FirstOccupied(world, col, 0)
  {
    for y := 0 to ROWS
      invariant FirstOccupied(world, col, 0) == FirstOccupied(world, col, y)
    {
      if world[y, col] != None {
        return Some(y);
      }
    }
    return None;
  }

  /** A player box standing on the first occupied cell of a column, two cells above it,
      has no corner in an occupied cell: both cells it covers are above that first block. */
  lemma {:induction false} ClearAboveTop(world: array2<Option<Kind>>, col: int, top: int)
    requires Shaped(world) && 0 <= col < COLS && FirstOccupied(world, col, 0) == Some(top)
    ensures !BoxHits(world, (col * TILE_SIZE) as real, ((top - 2) * TILE_SIZE) as real,
                     TILE_SIZE as real, (2 * TILE_SIZE) as real)
  {
    var x := (col * TILE_SIZE) as real;
    var y := ((top - 2) * TILE_SIZE) as real;
    CellFloorOf(col, x);
    CellFloorOf(col, x + TILE_SIZE as real - 1.0);
    CellFloorOf(top - 2, y);
    CellFloorOf(top - 1, y + (2 * TILE_SIZE) as real - 1.0);
  }

  /** create_player as written: a random tree spawn (x, y) puts the player's top-left
      corner at the wood cell (x, y - 1); without one, the player stands on the first
      block of the middle column; with neither, random.choice of the empty list raises
      IndexError (`None` here). `pick` is the random choice, as an index modulo the
      number of spawns. */
  method CreatePlayer(world: array2<Option<Kind>>, pick: nat) returns (player: Option<Player>)
    requires Shaped(world)
    ensures var spawns := TreeSpawns(world, COLS);
            var top := FirstOccupied(world, COLS / 2, 0);
            && (|spawns| > 0 ==>
                  && player.Some?
                  && player.value.x == (spawns[pick % |spawns|].0 * TILE_SIZE) as real
                  && player.value.y == ((spawns[pick % |spawns|].1 - 1) * TILE_SIZE) as real)
            && (|spawns| == 0 && top.Some? ==>
                  && player.Some?
                  && player.value.x == (COLS / 2 * TILE_SIZE) as real
                  && player.value.y == ((top.value - 2) * TILE_SIZE) as real)
            && (|spawns| == 0 && top.None? ==> player.None?)
    ensures player.Some? ==> fresh(player.value) && player.value.Spawned()
    // the bug: at a tree spawn the new player collides at once
    ensures |TreeSpawns(world, COLS)| > 0 ==>
              player.Some? && BoxHits(world, player.value.x, player.value.y, player.value.width, player.value.height)
  {
    var spawns := SpawnLocations(world);
    if |spawns| == 0 {
      var midX := COLS / 2;
      var top := TopOfColumn(world, midX);
      if top.Some? {
        var p := new Player((midX * TILE_SIZE) as real, ((top.value - 2) * TILE_SIZE) as real);
        return Some(p);
      }
      return None;
    }
    var spawn := spawns[pick % |spawns|];
    TreeSpawnsExact(world, COLS);
    assert spawn in spawns;
    TreeSpawnInsideTrunk(world, spawn.0, spawn.1);
    var p := new Player((spawn.0 * TILE_SIZE) as real, ((spawn.1 - 1) * TILE_SIZE) as real);
    return Some(p);
  }

  /** The spawn create_player picks on a tree lies inside the tree: the player's top-left
      corner is in the trunk base. */
  lemma TreeSpawnInsideTrunk(world: array2<Option<Kind>>, x: int, y: int)
    requires Shaped(world) && IsTreeSpawn(world, x, y)
    ensures BoxHits(world, (x * TILE_SIZE) as real, ((y - 1) * TILE_SIZE) as real,
                    TILE_SIZE as real, (2 * TILE_SIZE) as real)
  {
    CellFloorOf(x, (x * TILE_SIZE) as real);
    CellFloorOf(y - 1, ((y - 1) * TILE_SIZE) as real);
  }

  /** Every tree of a generated world offers a spawn: its trunk base above the dirt below. */
  lemma GeneratedTreeIsSpawn(d: Draws, world: array2<Option<Kind>>, x: int)
    requires WellFormed(d) && Shaped(world) && 0 <= x < COLS && HasTree(d, x)
    requires forall r, c :: 0 <= r < ROWS && 0 <= c < COLS ==> world[r, c] == Generated(d, r, c)
    ensures IsTreeSpawn(world, x, HeightAt(d.deltas, x) + 1)
  {
    var h := HeightAt(d.deltas, x);
    assert world[h, x] == Generated(d, h, x);
    assert world[h + 1, x] == Generated(d, h + 1, x);
  }

  /** Every column of a generated world has a first occupied cell, at worst on the
      bedrock row, so the fallback of create_player always finds a spawn. */
  lemma GeneratedColumnOccupied(d: Draws, world: array2<Option<Kind>>, col: int)
    requires WellFormed(d) && Shaped(world) && 0 <= col < COLS
    requires forall r, c :: 0 <= r < ROWS && 0 <= c < COLS ==> world[r, c] == Generated(d, r, c)
    ensures FirstOccupied(world, col, 0).Some?
  {
    assert world[ROWS - 1, col] == Generated(d, ROWS - 1, col);
  }

  /** create_player with the spawn it evidently intends: on a tree spawn the player
      stands on top of that column (its first occupied cell), as the fallback stands it
      on the middle column. Either way the collision test is negative at the spawn. */
  method CreatePlayerOnTreeTop(world: array2<Option<Kind>>, pick: nat) returns (player: Option<Player>)
    requires Shaped(world)
    ensures var spawns := TreeSpawns(world, COLS);
            var top := FirstOccupied(world, COLS / 2, 0);
            && (|spawns| > 0 ==>
                  var col := spawns[pick % |spawns|].0;
                  && 0 <= col < COLS
                  && FirstOccupied(world, col, 0).Some?
                  && player.Some?
                  && player.value.x == (col * TILE_SIZE) as real
                  && player.value.y == ((FirstOccupied(world, col, 0).value - 2) * TILE_SIZE) as real)
            && (|spawns| == 0 && top.Some? ==>
                  && player.Some?
                  && player.value.x == (COLS / 2 * TILE_SIZE) as real
                  && player.value.y == ((top.value - 2) * TILE_SIZE) as real)
            && (|spawns| == 0 && top.None? ==> player.None?)
    ensures player.Some? ==> fresh(player.value) && player.value.Spawned()
    ensures player.Some? ==> !BoxHits(world, player.value.x, player.value.y, player.value.width, player.value.height)
  {
    var spawns := SpawnLocations(world);
    var col := COLS / 2;
    if |spawns| > 0 {
      col := spawns[pick % |spawns|].0;
      TreeSpawnsExact(world, COLS);
      assert spawns[pick % |spawns|] in spawns;
    }
    var top := TopOfColumn(world, col);
    if top.None? {
      return None;
    }
    ClearAboveTop(world, col, top.value);
    var p := new Player((col * TILE_SIZE) as real, ((top.value - 2) * TILE_SIZE) as real);
    return Some(p);
  }

  // ---------------------------------------------------------------------
  // The game

  /** The column CreatePlayerOnTreeTop stands the player on: the chosen tree's column, or
      the middle column when there is no tree. */
  function SpawnColumn(world: array2<Option<Kind>>, pick: nat): (col: int)
    requires Shaped(world)
    reads world
    ensures 0 <= col < COLS
  {
    var spawns := TreeSpawns(world, COLS);
    TreeSpawnsExact(world, COLS);
    if |spawns| > 0 then
      assert spawns[pick % |spawns|] in spawns;
      spawns[pick % |spawns|].0
    else COLS / 2
  }

  /** What __init__ builds before storing it: the generated world and the player
      CreatePlayerOnTreeTop spawns on it, two rows above the first block of its column
      (the bedrock row guarantees one). */
  method Setup(d: Draws, pick: nat) returns (world: array2<Option<Kind>>, player: Player)
    requires WellFormed(d)
    ensures Shaped(world) && fresh(world) && fresh(player) && player.Spawned()
    ensures forall r, c :: 0 <= r < ROWS && 0 <= c < COLS ==> world[r, c] == Generated(d, r, c)
    ensures var col := SpawnColumn(world, pick);
            && FirstOccupied(world, col, 0).Some?
            && player.x == (col * TILE_SIZE) as real
            && player.y == ((FirstOccupied(world, col, 0).value - 2) * TILE_SIZE) as real
    ensures !BoxHits(world, player.x, player.y, player.width, player.height)
  {
    world := GenerateWorld(d);
    GeneratedColumnOccupied(d, world, COLS / 2);
    var p := CreatePlayerOnTreeTop(world, pick);
    if p.None? {
      assert false;
    }
    player := p.value;
  }

  /** What the mining part of handle_input does to the mining state st of a w by h player
      at (x, y): a click within reach is one mine_block call, as `Mine` describes it; no
      click, or one out of reach, changes nothing. */
  function ClickEffect(world: array2<Option<Kind>>, st: MiningState, x: real, y: real, w: real, h: real,
                       click: Option<Pos>): (r: (MiningState, MineOutcome))
    requires Shaped(world)
    reads world
    ensures click.None? || !WithinReach(x, y, w, h, click.value.0, click.value.1) ==> r == (st, Returned(false))
    ensures r.1 == Returned(true) ==> ClickedCell(world, click).Some? && r.0 == MiningState(0, None)
  {
    if click.None? || !WithinReach(x, y, w, h, click.value.0, click.value.1) then (st, Returned(false))
    else Mine(st, click.value, ClickedCell(world, click))
  }

  class Game {
    var world: array2<Option<Kind>>
    var player: Player

    predicate Valid()
      reads this
    {
      Shaped(world)
    }

    /** No corner of the player's box lies in an occupied cell: the collision test of
        game.py is negative at the player's position. */
    predicate Clear()
      requires Valid()
      reads this, world, player
    {
      !BoxHits(world, player.x, player.y, player.width, player.height)
    }

    /** __init__: a generated world and a player created on it by CreatePlayerOnTreeTop,
        whose collision test is negative at the spawn. */
    constructor (d: Draws, pick: nat)
      requires WellFormed(d)
      ensures Valid() && fresh(world) && fresh(player) && player.Spawned()
      ensures forall r, c :: 0 <= r < ROWS && 0 <= c < COLS ==> world[r, c] == Generated(d, r, c)
      ensures var col := SpawnColumn(world, pick);
              && FirstOccupied(world, col, 0).Some?
              && player.x == (col * TILE_SIZE) as real
              && player.y == ((FirstOccupied(world, col, 0).value - 2) * TILE_SIZE) as real
      ensures Clear()
    {
      var w, p := Setup(d, pick);
      world := w;
      player := p;
    }

    /** The movement part of handle_input: left sets vel_x to -6, otherwise right sets it
        to 6 (friction lives in update); a jump sets vel_y to JUMP_POWER only on the ground. */
    method Steer(left: bool, right: bool, jump: bool)
      modifies player`velX, player`velY
      ensures player.velX == if left then -6.0 else if right then 6.0 else old(player.velX)
      ensures player.velY == if jump && player.onGround then JUMP_POWER else old(player.velY)
    {
      if left {
        player.velX := -6.0;
      } else if right {
        player.velX := 6.0;
      }
      if jump && player.onGround {
        player.velY := JUMP_POWER;
      }
    }

    /** The mining part of handle_input: a click on a cell within reach is one mine_block
        call on it, as `ClickEffect` gives it, and `raised` reports the KeyError that call
        raises on wood and leaves. On a completed hit the cell is emptied and its kind
        credited once; no other cell or inventory entry changes. The cell under the mouse
        is given, not computed from the cursor and the camera. */
    method Click(click: Option<Pos>) returns (raised: bool)
      requires Valid()
      modifies player`miningProgress, player`miningTarget, player`inventory, world
      ensures var cell := old(ClickedCell(world, click));
              var e := old(ClickEffect(world, MiningState(player.miningProgress, player.miningTarget),
                                       player.x, player.y, player.width, player.height, click));
              && MiningState(player.miningProgress, player.miningTarget) == e.0
              && (raised <==> e.1 == KeyError)
              && (e.1 == Returned(true) ==>
                    && world[click.value.1, click.value.0] == None
                    && player.inventory == old(player.inventory)[cell.value := old(player.Count(cell.value)) + 1])
              && (e.1 != Returned(true) ==> player.inventory == old(player.inventory))
      ensures var e := old(ClickEffect(world, MiningState(player.miningProgress, player.miningTarget),
                                       player.x, player.y, player.width, player.height, click));
              forall r, c :: 0 <= r < ROWS && 0 <= c < COLS && (e.1 != Returned(true) || click != Some((c, r)))
                ==> world[r, c] == old(world[r, c])
    {
      raised := false;
      if click.Some? {
        var gridX, gridY := click.value.0, click.value.1;
        if WithinReach(player.x, player.y, player.width, player.height, gridX, gridY) {
          var out := player.MineBlock(world, (gridX, gridY));
          raised := out == KeyError;
        }
      }
    }

    /** handle_input: Steer, then Click. Mining only empties cells, so a player whose
        collision test was negative still has a negative one. */
    method HandleInput(left: bool, right: bool, jump: bool, click: Option<Pos>) returns (raised: bool)
      requires Valid()
      modifies player`velX, player`velY, player`miningProgress, player`miningTarget, player`inventory, world
      ensures player.velX == if left then -6.0 else if right then 6.0 else old(player.velX)
      ensures player.velY == if jump && player.onGround then JUMP_POWER else old(player.velY)
      ensures var cell := old(ClickedCell(world, click));
              var e := old(ClickEffect(world, MiningState(player.miningProgress, player.miningTarget),
                                       player.x, player.y, player.width, player.height, click));
              && MiningState(player.miningProgress, player.miningTarget) == e.0
              && (raised <==> e.1 == KeyError)
              && (e.1 == Returned(true) ==>
                    && world[click.value.1, click.value.0] == None
                    && player.inventory == old(player.inventory)[cell.value := old(player.Count(cell.value)) + 1])
              && (e.1 != Returned(true) ==> player.inventory == old(player.inventory))
      ensures var e := old(ClickEffect(world, MiningState(player.miningProgress, player.miningTarget),
                                       player.x, player.y, player.width, player.height, click));
              forall r, c :: 0 <= r < ROWS && 0 <= c < COLS && (e.1 != Returned(true) || click != Some((c, r)))
                ==> world[r, c] == old(world[r, c])
      ensures raised <==> click.Some? && WithinReach(player.x, player.y, player.width, player.height,
                                                     click.value.0, click.value.1)
                          && var cell := if InGrid(click.value.0, click.value.1) then old(world[click.value.1, click.value.0]) else None;
                             cell == Some(Wood) || cell == Some(Leaves)
      ensures forall r, c :: 0 <= r < ROWS && 0 <= c < COLS ==> world[r, c] == None || world[r, c] == old(world[r, c])
      ensures old(Clear()) ==> Clear()
    {
      Steer(left, right, jump);
      raised := Click(click);
    }

    /** One frame of run: the commands, then the physics step of update, which a KeyError
        from mine_block cuts short (`stopped`: the exception leaves run). The mining state,
        inventory and grid change as the click gives them; the motion is `PhysicsStep` from the
        steered speeds over the grid as the click left it. A negative collision test stays
        negative. */
    method Tick(left: bool, right: bool, jump: bool, click: Option<Pos>) returns (stopped: bool)
      requires Valid()
      modifies player, world
      ensures Valid()
      ensures var cell := old(ClickedCell(world, click));
              var e := old(ClickEffect(world, MiningState(player.miningProgress, player.miningTarget),
                                       player.x, player.y, player.width, player.height, click));
              && MiningState(player.miningProgress, player.miningTarget) == e.0
              && (stopped <==> e.1 == KeyError)
              && (e.1 == Returned(true) ==>
                    && world[click.value.1, click.value.0] == None
                    && player.inventory == old(player.inventory)[cell.value := old(player.Count(cell.value)) + 1])
              && (e.1 != Returned(true) ==> player.inventory == old(player.inventory))
      ensures var e := old(ClickEffect(world, MiningState(player.miningProgress, player.miningTarget),
                                       player.x, player.y, player.width, player.height, click));
              forall r, c :: 0 <= r < ROWS && 0 <= c < COLS && (e.1 != Returned(true) || click != Some((c, r)))
                ==> world[r, c] == old(world[r, c])
      ensures var vx := if left then -6.0 else if right then 6.0 else old(player.velX);
              var vy := if jump && old(player.onGround) then JUMP_POWER else old(player.velY);
              !stopped ==> Motion(player.x, player.y, player.velX, player.velY, player.onGround)
                           == PhysicsStep(world, old(player.x), old(player.y), vx, vy, player.width, player.height)
      ensures var vx := if left then -6.0 else if right then 6.0 else old(player.velX);
              var vy := if jump && old(player.onGround) then JUMP_POWER else old(player.velY);
              stopped ==> && player.x == old(player.x) && player.y == old(player.y)
                          && player.velX == vx && player.velY == vy && player.onGround == old(player.onGround)
      ensures old(Clear()) ==> Clear()
    {
      stopped := HandleInput(left, right, jump, click);
      if !stopped {
        player.Update(world);
      }
    }
  }
}
