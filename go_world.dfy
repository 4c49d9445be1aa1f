/** game.go's world: the Block cells it stores, the max/min helpers, and generateWorld.
    The grid it builds is the one Terrain describes, each block carrying the displayed
    Value of its kind. */
module GoWorld {
  import opened Blocks
  import opened Terrain

  /** A placed block: its kind (`Type`) and the number drawn on it (`Value`). */
  datatype Block = Block(kind: Kind, value: int)

  /** The block generateWorld places for a kind: `&Block{Type: k, Value: BLOCK_TYPES[k].Value}`. */
  function Placed(k: Kind): (b: Block)
    ensures b.kind == k && b.value == GoBlockType(k).value
    ensures k != Sand ==> 1 <= b.value <= 9
  {
    Block(k, GoBlockType(k).value)
  }

  /** A cell of the Terrain grid as game.go stores it. */
  function Lift(cell: Option<Kind>): (b: Option<Block>)
    ensures b == None <==> cell == None
    ensures b.Some? ==> b.value.kind == cell.value && b.value.value == GoBlockType(cell.value).value
  {
    match cell
    case None => None
    case Some(k) => Some(Placed(k))
  }

  // ---------------------------------------------------------------------
  // Helpers

  /** `max(a, b int)`. */
  function Max(a: int, b: int): (m: int)
    ensures m >= a && m >= b
    ensures m == a || m == b
  {
    if a > b then a else b
  }

  /** `min` instantiated at int. */
  function Min(a: int, b: int): (m: int)
    ensures m <= a && m <= b
    ensures m == a || m == b
  {
    if a < b then a else b
  }

  /** `min` instantiated at float64 (exact reals here). */
  function MinReal(a: real, b: real): (m: real)
    ensures m <= a && m <= b
    ensures m == a || m == b
  {
    if a < b then a else b
  }

  // ---------------------------------------------------------------------
  // generateWorld

  /** The tree loops of generateWorld on row y of column x: trunk, then canopy. */
  method StampTree(world: array2<Option<Block>>, x: int, y: int, th: int)
    requires Shaped(world) && 0 <= x < COLS && y < ROWS && 0 <= th
    modifies world
    ensures forall r, c :: 0 <= r < ROWS && 0 <= c < COLS ==>
              world[r, c] == if InCanopy(x, y, th, r, c) then Some(Placed(Leaves))
                             else if InTrunk(x, y, th, r, c) then Some(Placed(Wood))
                             else old(world[r, c])
  {
    for ty := 0 to th
      invariant forall r, c :: 0 <= r < ROWS && 0 <= c < COLS ==>
                  world[r, c] == if c == x && y - ty < r <= y && 0 <= r then Some(Placed(Wood))
                                 else old(world[r, c])
    {
      if y - ty >= 0 {
        world[y - ty, x] := Some(Block(Wood, GoBlockType(Wood).value));
      }
    }

    for ly := 0 to |LEAF_SIZES|
      invariant forall r, c :: 0 <= r < ROWS && 0 <= c < COLS ==>
                  world[r, c] == if InCanopy(x, y, th, r, c) && y - th - r < ly then Some(Placed(Leaves))
                                 else if InTrunk(x, y, th, r, c) then Some(Placed(Wood))
                                 else old(world[r, c])
    {
      var width := LEAF_SIZES[ly];
      var start := Max(0, x - width / 2);
      var end := Min(COLS, x + width / 2 + 1);
      for lx := start to end
        invariant forall r, c :: 0 <= r < ROWS && 0 <= c < COLS ==>
                    world[r, c] == if InCanopy(x, y, th, r, c)
                                        && (y - th - r < ly || (y - th - r == ly && c < lx))
                                   then Some(Placed(Leaves))
                                   else if InTrunk(x, y, th, r, c) then Some(Placed(Wood))
                                   else old(world[r, c])
      {
        if y - th - ly >= 0 {
          world[y - th - ly, lx] := Some(Block(Leaves, GoBlockType(Leaves).value));
        }
      }
    }
  }

  /** The baseHeights loop: each entry starts at ROWS / 2, then takes its step from the
      previous one and is pushed back into [ROWS / 4, ROWS * 3 / 4]. */
  method BaseHeights(d: Draws) returns (baseHeights: array<int>)
    requires WellFormed(d)
    ensures fresh(baseHeights) && baseHeights.Length == COLS
    ensures forall x :: 0 <= x < COLS ==> baseHeights[x] == HeightAt(d.deltas, x)
  {
    baseHeights := new int[COLS];
    for i := 0 to COLS
      invariant forall j {:trigger baseHeights[j]} :: 0 <= j < i ==> baseHeights[j] == HeightAt(d.deltas, j)
    {
      var h := ROWS / 2;
      if i > 0 {
        var diff := d.deltas[i];
        h := baseHeights[i - 1] + diff;
        assert HeightAt(d.deltas, i) == Clamp(h);
        if h < ROWS / 4 {
          h := ROWS / 4;
        } else if h > ROWS * 3 / 4 {
          h := ROWS * 3 / 4;
        }
      }
      baseHeights[i] := h;
    }
  }

  /** One iteration of the terrain loop: column x with its ground layers and its tree. */
  method FillColumn(d: Draws, world: array2<Option<Block>>, x: int, height: int)
    requires WellFormed(d) && Shaped(world) && 0 <= x < COLS && height == HeightAt(d.deltas, x)
    requires forall r, c :: 0 <= r < ROWS && 0 <= c < COLS ==> world[r, c] == Lift(Partial(d, r, c, x))
    modifies world
    ensures forall r, c :: 0 <= r < ROWS && 0 <= c < COLS ==> world[r, c] == Lift(Partial(d, r, c, x + 1))
  {
    var treeChance := d.treeRolls[x];
    for y := 0 to ROWS
      invariant forall r, c :: 0 <= r < ROWS && 0 <= c < COLS ==> world[r, c] == Lift(ColumnPass(d, x, y, r, c))
    {
      if y == height {
        SurfaceCell(d, world, x, y, treeChance);
      } else {
        if y > height {
          var blockType := GroundKind(y, height, d.oreRolls[x][y]);
          if world[y, x] == None {
            world[y, x] := Some(Block(blockType, GoBlockType(blockType).value));
          }
        }
        forall r, c | 0 <= r < ROWS && 0 <= c < COLS {
          PassStep(d, x, y, r, c);
        }
      }
    }
  }

  /** Row y == height of the terrain loop: the tree on a lucky surface, then the surface
      dirt unless the trunk base already fills the cell. */
  method SurfaceCell(d: Draws, world: array2<Option<Block>>, x: int, y: int, treeChance: real)
    requires WellFormed(d) && Shaped(world) && 0 <= x < COLS && y == HeightAt(d.deltas, x)
    requires treeChance == d.treeRolls[x]
    requires forall r, c :: 0 <= r < ROWS && 0 <= c < COLS ==> world[r, c] == Lift(Partial(d, r, c, x))
    modifies world
    ensures forall r, c :: 0 <= r < ROWS && 0 <= c < COLS ==> world[r, c] == Lift(ColumnPass(d, x, y + 1, r, c))
  {
    var blockType := GroundKind(y, y, d.oreRolls[x][y]);
    if treeChance < TREE_CHANCE {
      StampTree(world, x, y, d.treeHeights[x]);
      // the trunk base now fills the surface cell
      assert InTrunk(x, y, d.treeHeights[x], y, x);
    }
    if world[y, x] == None {
      world[y, x] := Some(Block(blockType, GoBlockType(blockType).value));
    }
    if treeChance < TREE_CHANCE {
      TreeSurfaceFilled(d, world, x, y);
    } else {
      BareSurfaceFilled(d, world, x, y);
    }
  }

  /** The surface row with a tree, cell by cell. */
  lemma TreeSurfaceFilled(d: Draws, world: array2<Option<Block>>, x: int, y: int)
    requires WellFormed(d) && Shaped(world) && 0 <= x < COLS && y == HeightAt(d.deltas, x)
    requires HasTree(d, x)
    requires forall r, c :: 0 <= r < ROWS && 0 <= c < COLS ==>
               world[r, c] == if InCanopy(x, y, d.treeHeights[x], r, c) then Some(Placed(Leaves))
                              else if InTrunk(x, y, d.treeHeights[x], r, c) then Some(Placed(Wood))
                              else Lift(Partial(d, r, c, x))
    ensures forall r, c :: 0 <= r < ROWS && 0 <= c < COLS ==> world[r, c] == Lift(ColumnPass(d, x, y + 1, r, c))
  {
    forall r, c | 0 <= r < ROWS && 0 <= c < COLS
      ensures world[r, c] == Lift(ColumnPass(d, x, y + 1, r, c))
    {
      SurfaceStep(d, x, y, r, c);
    }
  }

  /** The surface row without a tree, cell by cell. */
  lemma BareSurfaceFilled(d: Draws, world: array2<Option<Block>>, x: int, y: int)
    requires WellFormed(d) && Shaped(world) && 0 <= x < COLS && y == HeightAt(d.deltas, x)
    requires !HasTree(d, x)
    requires world[y, x] == Some(Placed(Dirt))
    requires forall r, c :: 0 <= r < ROWS && 0 <= c < COLS && (r != y || c != x) ==>
               world[r, c] == Lift(Partial(d, r, c, x))
    ensures forall r, c :: 0 <= r < ROWS && 0 <= c < COLS ==> world[r, c] == Lift(ColumnPass(d, x, y + 1, r, c))
  {
    forall r, c | 0 <= r < ROWS && 0 <= c < COLS
      ensures world[r, c] == Lift(ColumnPass(d, x, y + 1, r, c))
    {
      SurfaceStep(d, x, y, r, c);
    }
  }

  /** The last loop of generateWorld: row ROWS - 1 becomes unbreakable in every column. */
  method AddBedrock(world: array2<Option<Block>>)
    requires Shaped(world)
    modifies world
    ensures forall r, c :: 0 <= r < ROWS && 0 <= c < COLS ==>
              world[r, c] == if r == ROWS - 1 then Some(Placed(Unbreakable)) else old(world[r, c])
  {
    for x := 0 to COLS
      invariant forall r, c :: 0 <= r < ROWS && 0 <= c < COLS ==>
                  world[r, c] == if r == ROWS - 1 && c < x then Some(Placed(Unbreakable)) else old(world[r, c])
    {
      world[ROWS - 1, x] := Some(Block(Unbreakable, GoBlockType(Unbreakable).value));
    }
  }

  /** generateWorld: heights, terrain with trees, bedrock; every placed block carries the
      Value of its kind. */
  method GenerateWorld(d: Draws) returns (world: array2<Option<Block>>)
    requires WellFormed(d)
    ensures fresh(world) && Shaped(world)
    ensures forall r, c :: 0 <= r < ROWS && 0 <= c < COLS ==> world[r, c] == Lift(Generated(d, r, c))
  {
    world := new Option<Block>[ROWS, COLS]((_, _) => None);
    var baseHeights := BaseHeights(d);
    for x := 0 to COLS
      invariant forall r, c :: 0 <= r < ROWS && 0 <= c < COLS ==> world[r, c] == Lift(Partial(d, r, c, x))
      invariant forall i :: 0 <= i < COLS ==> baseHeights[i] == HeightAt(d.deltas, i)
    {
      FillColumn(d, world, x, baseHeights[x]);
    }
    AddBedrock(world);
  }

  /** Every block of a generated world shows the Value of its kind, and no block is sand. */
  lemma GeneratedValues(d: Draws, world: array2<Option<Block>>, r: int, c: int)
    requires WellFormed(d) && Shaped(world) && 0 <= r < ROWS && 0 <= c < COLS
    requires forall r', c' :: 0 <= r' < ROWS && 0 <= c' < COLS ==> world[r', c'] == Lift(Generated(d, r', c'))
    requires world[r, c].Some?
    ensures world[r, c].value.value == GoBlockType(world[r, c].value.kind).value
    ensures world[r, c].value.kind != Sand && 1 <= world[r, c].value.value <= 9
  {
    assert world[r, c] == Lift(Generated(d, r, c));
  }
}
