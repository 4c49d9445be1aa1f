/** The world that generation produces, as a function of the random draws it consumes.
    Both ports run the same three passes over a ROWS x COLS grid: a clamped random walk
    of surface heights, a column-by-column fill of dirt, stone and ore below the surface
    with a tree stamped on some surfaces, and a bottom row of unbreakable blocks.
    The imperative passes live in PyGame.GenerateWorld and GoWorld.GenerateWorld; this
    module says what grid they must build and proves the promised invariants of it. */
module Terrain {
  import opened Blocks

  const MIN_HEIGHT: int := ROWS / 4
  const MAX_HEIGHT: int := ROWS * 3 / 4
  const START_HEIGHT: int := ROWS / 2
  /** A column carries a tree when its tree roll is below this. */
  const TREE_CHANCE: real := 0.2
  /** Canopy row widths, from the row right above the trunk upwards. */
  const LEAF_SIZES: seq<int> := [1, 3, 5, 3, 1]

  /** The random draws of one generation, indexed by the column (and row) that uses them:
      `deltas[x]` the height step of column x > 0 (`deltas[0]` is never read),
      `treeRolls[x]` the tree chance of column x, `treeHeights[x]` its trunk height,
      `oreRolls[x][y]` the ore roll of the deep cell (y, x). */
  datatype Draws = Draws(deltas: seq<int>, treeRolls: seq<real>, treeHeights: seq<int>,
                         oreRolls: seq<seq<real>>)

  /** Height steps come from randint(-2, 2) / rand.Intn(5) - 2. */
  predicate StepsInRange(deltas: seq<int>) {
    forall i :: 0 <= i < |deltas| ==> -2 <= deltas[i] <= 2
  }

  /** The ranges the random functions guarantee, and one draw of each kind per column. */
  predicate WellFormed(d: Draws) {
    && |d.deltas| == COLS && StepsInRange(d.deltas)
    && |d.treeRolls| == COLS
    && |d.treeHeights| == COLS
    && (forall x :: 0 <= x < COLS ==> 3 <= d.treeHeights[x] <= 6)
    && |d.oreRolls| == COLS
    && (forall x :: 0 <= x < COLS ==> |d.oreRolls[x]| == ROWS)
  }

  // ---------------------------------------------------------------------
  // Surface heights

  /** Clamping a raw height into [ROWS / 4, ROWS * 3 / 4]. */
  function Clamp(v: int): (r: int)
    ensures MIN_HEIGHT <= r <= MAX_HEIGHT
    ensures MIN_HEIGHT <= v <= MAX_HEIGHT ==> r == v
    ensures v < MIN_HEIGHT ==> r == MIN_HEIGHT
    ensures v > MAX_HEIGHT ==> r == MAX_HEIGHT
  {
    if v < MIN_HEIGHT then MIN_HEIGHT else if v > MAX_HEIGHT then MAX_HEIGHT else v
  }

  /** The surface row of column x: the random walk from ROWS / 2, clamped at each step. */
  function HeightAt(deltas: seq<int>, x: nat): (h: int)
    requires x < |deltas| && StepsInRange(deltas)
    ensures MIN_HEIGHT <= h <= MAX_HEIGHT
    decreases x
  {
    if x == 0 then START_HEIGHT else Clamp(HeightAt(deltas, x - 1) + deltas[x])
  }

  /** Clamping never widens a step: neighbouring surfaces differ by at most 2. */
  lemma HeightStep(deltas: seq<int>, x: nat)
    requires 0 < x < |deltas| && StepsInRange(deltas)
    ensures -2 <= HeightAt(deltas, x) - HeightAt(deltas, x - 1) <= 2
  {
  }

  /** Neighbouring surfaces differ by at most 2 per column of distance. */
  lemma {:induction false} HeightLipschitz(deltas: seq<int>, a: nat, b: nat)
    requires a <= b < |deltas| && StepsInRange(deltas)
    ensures -2 * (b - a) <= HeightAt(deltas, b) - HeightAt(deltas, a) <= 2 * (b - a)
    decreases b - a
  {
    if a < b {
      HeightLipschitz(deltas, a, b - 1);
      HeightStep(deltas, b);
    }
  }

  // ---------------------------------------------------------------------
  // Ground layers

  /** The kind chosen for cell row y of a column whose surface is `height`, given the
      ore roll of that cell (only read five rows or more below the surface). */
  function GroundKind(y: int, height: int, roll: real): (k: Kind)
    requires y >= height
    ensures k == Dirt <==> y < height + 5
    ensures k in {Dirt, Stone, Iron, Gold, Diamond}
    ensures k == Diamond ==> y < ROWS - 10
    ensures k == Gold || k == Iron ==> y < ROWS - 5
    ensures y >= height + 5 && roll < 0.01 && y < ROWS - 10 ==> k == Diamond
    ensures y >= height + 5 && roll >= 0.08 ==> k == Stone
  {
    if y == height then Dirt
    else if y < height + 5 then Dirt
    else if roll < 0.01 && y < ROWS - 10 then Diamond
    else if roll < 0.03 && y < ROWS - 5 then Gold
    else if roll < 0.08 && y < ROWS - 5 then Iron
    else Stone
  }

  // ---------------------------------------------------------------------
  // Trees

  predicate HasTree(d: Draws, x: int)
    requires WellFormed(d) && 0 <= x < COLS
  {
    d.treeRolls[x] < TREE_CHANCE
  }

  /** Cell (r, c) belongs to the trunk of a tree of height th standing on row y of
      column x: rows y - th + 1 .. y, cut at the top of the grid. */
  predicate InTrunk(x: int, y: int, th: int, r: int, c: int) {
    c == x && y - th < r <= y && 0 <= r
  }

  /** Cell (r, c) belongs to the canopy: canopy row ly (0 .. 4) is row y - th - ly and
      spans columns x - LEAF_SIZES[ly] / 2 .. x + LEAF_SIZES[ly] / 2, cut at the grid's
      left, right and top edges. */
  predicate InCanopy(x: int, y: int, th: int, r: int, c: int) {
    var ly := y - th - r;
    0 <= ly < |LEAF_SIZES| && 0 <= r && 0 <= c < COLS
      && x - LEAF_SIZES[ly] / 2 <= c <= x + LEAF_SIZES[ly] / 2
  }

  /** Trunk and canopy of one tree never share a cell. */
  lemma TrunkCanopyDisjoint(x: int, y: int, th: int, r: int, c: int)
    requires InTrunk(x, y, th, r, c)
    ensures !InCanopy(x, y, th, r, c)
  {
  }

  /** A tree standing on the surface of column x never reaches a cell at or below the
      surface of any column, except its own trunk base on the surface of column x. */
  lemma {:induction false} TreeStaysAboveGround(d: Draws, x: int, r: int, c: int)
    requires WellFormed(d) && 0 <= x < COLS && 0 <= c < COLS
    requires InCanopy(x, HeightAt(d.deltas, x), d.treeHeights[x], r, c)
          || InTrunk(x, HeightAt(d.deltas, x), d.treeHeights[x], r, c)
    ensures r < HeightAt(d.deltas, c) || (r == HeightAt(d.deltas, x) && c == x)
  {
    var h := HeightAt(d.deltas, x);
    if InCanopy(x, h, d.treeHeights[x], r, c) {
      var ly := h - d.treeHeights[x] - r;
      assert LEAF_SIZES[ly] / 2 <= 2;
      assert LEAF_SIZES[ly] / 2 <= ly;
      if c <= x {
        HeightLipschitz(d.deltas, c, x);
      } else {
        HeightLipschitz(d.deltas, x, c);
      }
    }
  }

  // ---------------------------------------------------------------------
  // The generated grid

  /** The cell (y, x) at or below the surface, as the column pass leaves it: the trunk
      base replaces the surface dirt of a column with a tree. */
  function ColumnCell(d: Draws, x: int, y: int): (k: Kind)
    requires WellFormed(d) && 0 <= x < COLS && HeightAt(d.deltas, x) <= y < ROWS
    ensures k == Wood <==> y == HeightAt(d.deltas, x) && HasTree(d, x)
    ensures k != Unbreakable && k != Leaves && k != Sand
  {
    var h := HeightAt(d.deltas, x);
    if y == h && HasTree(d, x) then Wood else GroundKind(y, h, d.oreRolls[x][y])
  }

  /** Cell (r, c) above the surface after the trees of columns 0 .. n - 1 are stamped:
      a later tree overwrites an earlier one where they overlap. */
  function AboveCell(d: Draws, r: int, c: int, n: nat): (cell: Option<Kind>)
    requires WellFormed(d) && n <= COLS
    ensures cell == None || cell == Some(Wood) || cell == Some(Leaves)
    ensures cell != None ==> exists x :: 0 <= x < n && HasTree(d, x)
                                      && (|| InCanopy(x, HeightAt(d.deltas, x), d.treeHeights[x], r, c)
                                          || InTrunk(x, HeightAt(d.deltas, x), d.treeHeights[x], r, c))
    decreases n
  {
    if n == 0 then None
    else
      var x := n - 1;
      var h := HeightAt(d.deltas, x);
      if HasTree(d, x) && InCanopy(x, h, d.treeHeights[x], r, c) then Some(Leaves)
      else if HasTree(d, x) && InTrunk(x, h, d.treeHeights[x], r, c) then Some(Wood)
      else AboveCell(d, r, c, n - 1)
  }

  /** Cell (r, c) once columns 0 .. n - 1 have been filled and their trees stamped. */
  function Partial(d: Draws, r: int, c: int, n: nat): Option<Kind>
    requires WellFormed(d) && 0 <= r < ROWS && 0 <= c < COLS && n <= COLS
  {
    if r >= HeightAt(d.deltas, c) then (if c < n then Some(ColumnCell(d, c, r)) else None)
    else AboveCell(d, r, c, n)
  }

  /** Filling column x and stamping its tree turns the cells of `Partial(.., x)` into
      those of `Partial(.., x + 1)`: the column itself at and below its surface, the canopy
      and the trunk of its tree; every other cell is left as it was. */
  lemma PartialStep(d: Draws, x: int, r: int, c: int)
    requires WellFormed(d) && 0 <= x < COLS && 0 <= r < ROWS && 0 <= c < COLS
    ensures var h := HeightAt(d.deltas, x);
            var th := d.treeHeights[x];
            Partial(d, r, c, x + 1) ==
              if c == x && r >= h then Some(ColumnCell(d, x, r))
              else if HasTree(d, x) && InCanopy(x, h, th, r, c) then Some(Leaves)
              else if HasTree(d, x) && InTrunk(x, h, th, r, c) then Some(Wood)
              else Partial(d, r, c, x)
  {
    var h := HeightAt(d.deltas, x);
    var th := d.treeHeights[x];
    if HasTree(d, x) && (InCanopy(x, h, th, r, c) || InTrunk(x, h, th, r, c)) {
      TreeStaysAboveGround(d, x, r, c);
    }
  }

  /** Cell (r, c) while the column pass is at column x and has handled rows 0 .. y - 1 of
      it: until the surface row is reached nothing has changed; from then on the tree of
      column x is stamped and the column is filled down to row y - 1. */
  function ColumnPass(d: Draws, x: int, y: int, r: int, c: int): Option<Kind>
    requires WellFormed(d) && 0 <= x < COLS && 0 <= r < ROWS && 0 <= c < COLS
  {
    if y <= HeightAt(d.deltas, x) then Partial(d, r, c, x)
    else if c == x && r >= y then None
    else Partial(d, r, c, x + 1)
  }

  /** A row of the column pass other than the surface: above the surface nothing
      changes; below it, cell (y, x) receives its ground kind. */
  lemma PassStep(d: Draws, x: int, y: int, r: int, c: int)
    requires WellFormed(d) && 0 <= x < COLS && 0 <= r < ROWS && 0 <= c < COLS
    requires 0 <= y < ROWS && y != HeightAt(d.deltas, x)
    ensures ColumnPass(d, x, y + 1, r, c) ==
              if y > HeightAt(d.deltas, x) && r == y && c == x then Some(ColumnCell(d, x, y))
              else ColumnPass(d, x, y, r, c)
  {
    if y > HeightAt(d.deltas, x) && r == y && c == x {
      PartialStep(d, x, r, c);
    }
  }

  /** The surface row of the column pass: once it is handled, the column holds its tree
      (stamped over what was there) and its surface cell, and nothing below it yet. */
  lemma SurfaceStep(d: Draws, x: int, h: int, r: int, c: int)
    requires WellFormed(d) && 0 <= x < COLS && 0 <= r < ROWS && 0 <= c < COLS
    requires h == HeightAt(d.deltas, x)
    ensures ColumnPass(d, x, h + 1, r, c) ==
              if c == x && r == h then Some(ColumnCell(d, x, h))
              else if HasTree(d, x) && InCanopy(x, h, d.treeHeights[x], r, c) then Some(Leaves)
              else if HasTree(d, x) && InTrunk(x, h, d.treeHeights[x], r, c) then Some(Wood)
              else Partial(d, r, c, x)
  {
    if c == x && r > h {
      assert !InCanopy(x, h, d.treeHeights[x], r, c) && !InTrunk(x, h, d.treeHeights[x], r, c);
      assert Partial(d, r, c, x) == None;
    } else {
      PartialStep(d, x, r, c);
    }
  }

  /** Cell (r, c) of the finished world. */
  function Generated(d: Draws, r: int, c: int): (cell: Option<Kind>)
    requires WellFormed(d) && 0 <= r < ROWS && 0 <= c < COLS
    // the bedrock row, and nothing else, is unbreakable
    ensures r == ROWS - 1 <==> cell == Some(Unbreakable)
    // every cell at or below the surface is occupied
    ensures r >= HeightAt(d.deltas, c) ==> cell.Some?
    // above the surface there is only air, trunk and canopy
    ensures r < HeightAt(d.deltas, c) ==> cell == None || cell == Some(Wood) || cell == Some(Leaves)
    // ores lie five rows or more under the surface, diamond above ROWS - 10, gold and iron above ROWS - 5
    ensures cell == Some(Diamond) ==> HeightAt(d.deltas, c) + 5 <= r < ROWS - 10
    ensures cell == Some(Gold) || cell == Some(Iron) ==> HeightAt(d.deltas, c) + 5 <= r < ROWS - 5
    ensures cell != Some(Sand)
  {
    if r == ROWS - 1 then Some(Unbreakable) else Partial(d, r, c, COLS)
  }

  /** No tree reaches the top rows: a trunk of at most 6 and a canopy of 5 rows on a
      surface at row MIN_HEIGHT or lower leave rows 0 .. MIN_HEIGHT - 11 empty. */
  lemma {:induction false} AboveCellSky(d: Draws, r: int, c: int, n: nat)
    requires WellFormed(d) && n <= COLS && 0 <= r < MIN_HEIGHT - 10
    ensures AboveCell(d, r, c, n) == None
  {
    if n > 0 {
      AboveCellSky(d, r, c, n - 1);
    }
  }

  /** The top rows of every generated world are empty. */
  lemma GeneratedSky(d: Draws, r: int, c: int)
    requires WellFormed(d) && 0 <= r < MIN_HEIGHT - 10 && 0 <= c < COLS
    ensures Generated(d, r, c) == None
  {
    AboveCellSky(d, r, c, COLS);
  }
}
