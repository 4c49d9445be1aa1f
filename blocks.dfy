/** Block kinds, the world constants both ports share, and the two block tables
    (game.py's hardness dictionary and game.go's Hardness/Value map). */
module Blocks {

  datatype Option<+T> = None | Some(value: T)

  /** Every block kind either port names. `Sand` exists only in game.py's table. */
  datatype Kind = Dirt | Stone | Iron | Gold | Diamond | Sand | Unbreakable | Wood | Leaves

  const TILE_SIZE: int := 32
  const ROWS: int := 64
  const COLS: int := 128
  const GRAVITY: real := 0.5
  const JUMP_POWER: real := -10.0
  const MAX_FALL_SPEED: real := 12.0
  /** A block of hardness h needs h * MINING_SCALE accepted hits. */
  const MINING_SCALE: int := 20
  /** Mining reach, in pixels, from the player's centre to the block's centre. */
  const REACH: real := 160.0

  /** The grid has ROWS rows and COLS columns, indexed `world[row, col]`. */
  predicate Shaped<C>(world: array2<C>) {
    world.Length0 == ROWS && world.Length1 == COLS
  }

  predicate InGrid(col: int, row: int) {
    0 <= col < COLS && 0 <= row < ROWS
  }

  /** The content of the clicked cell (`None` is an empty cell); `None` as well without a
      click or outside the grid, where both ports ignore the click. */
  function ClickedCell<C>(world: array2<Option<C>>, click: Option<(int, int)>): (cell: Option<C>)
    requires Shaped(world)
    reads world
    ensures cell.Some? ==> click.Some? && InGrid(click.value.0, click.value.1)
                           && cell == world[click.value.1, click.value.0]
  {
    if click.Some? && InGrid(click.value.0, click.value.1) then world[click.value.1, click.value.0] else None
  }

  /** The first occupied row of column col at or below row y, if any. */
  function FirstOccupied<C>(world: array2<Option<C>>, col: int, y: int): (top: Option<int>)
    requires Shaped(world) && 0 <= col < COLS && 0 <= y <= ROWS
    reads world
    ensures top.Some? ==> y <= top.value < ROWS && world[top.value, col] != None
    ensures top.Some? ==> forall j :: y <= j < top.value ==> world[j, col] == None
    ensures top.None? ==> forall j :: y <= j < ROWS ==> world[j, col] == None
    decreases ROWS - y
  {
    if y == ROWS then None
    else if world[y, col] != None then Some(y)
    else FirstOccupied(world, col, y + 1)
  }

  // ---------------------------------------------------------------------
  // game.py's table

  /** A hardness entry of game.py: a number, or `float('inf')` for unbreakable. */
  datatype PyHardness = Finite(n: nat) | Infinite

  /** The `'hardness'` entry of game.py's BLOCK_TYPES; `None` where the entry has none
      (wood and leaves carry only a colour, so the lookup raises KeyError). */
  function PyHardnessOf(k: Kind): (h: Option<PyHardness>)
    ensures h == None <==> k == Wood || k == Leaves
    ensures h == Some(Infinite) <==> k == Unbreakable
    ensures h.Some? && h.value.Finite? ==> 1 <= h.value.n <= 4
    ensures h == Some(Finite(1)) <==> k == Dirt || k == Sand
  {
    match k
    case Dirt => Some(Finite(1))
    case Stone => Some(Finite(2))
    case Iron => Some(Finite(3))
    case Gold => Some(Finite(3))
    case Diamond => Some(Finite(4))
    case Sand => Some(Finite(1))
    case Unbreakable => Some(Infinite)
    case Wood => None
    case Leaves => None
  }

  // ---------------------------------------------------------------------
  // game.go's table

  datatype BlockType = BlockType(hardness: int, value: int)

  const MAX_INT32: int := 2147483647

  /** `BLOCK_TYPES[k]` of game.go. Sand is not a key there, and indexing a Go map with a
      missing key yields the zero value, `BlockType{Hardness: 0, Value: 0}`. */
  function GoBlockType(k: Kind): (t: BlockType)
    ensures t == BlockType(0, 0) <==> k == Sand
    ensures k != Sand ==> 1 <= t.hardness && 1 <= t.value <= 9
    ensures t.hardness == MAX_INT32 <==> k == Unbreakable
    ensures t.hardness == 1 <==> k in {Dirt, Wood, Leaves}
  {
    match k
    case Dirt => BlockType(1, 1)
    case Stone => BlockType(2, 2)
    case Iron => BlockType(3, 3)
    case Gold => BlockType(3, 4)
    case Diamond => BlockType(4, 5)
    case Sand => BlockType(0, 0)
    case Unbreakable => BlockType(MAX_INT32, 9)
    case Wood => BlockType(1, 6)
    case Leaves => BlockType(1, 7)
  }

  /** The displayed `Value` tells the kinds of game.go's table apart. */
  lemma GoValuesDistinct(a: Kind, b: Kind)
    requires a != Sand && b != Sand && a != b
    ensures GoBlockType(a).value != GoBlockType(b).value
  {
  }

  // ---------------------------------------------------------------------
  // Mining reach (game.py Game.handle_input, game.go handleMining)

  /** The range test of both ports: the Euclidean distance from the centre of a player box
      at (x, y) of size w by h to the centre of cell (gridX, gridY) is below 5 tiles.
      The source compares `sqrt(dx^2 + dy^2) < 160`; with exact non-negative reals that is
      `dx^2 + dy^2 < 160^2`, which is what is tested here. A cell in reach lies less than
      5 tiles from the player's centre on each axis, and a cell less than 3 tiles away on
      each axis is in reach. */
  predicate WithinReach(x: real, y: real, w: real, h: real, gridX: int, gridY: int): (b: bool)
    ensures var dx := (x + w / 2.0) - ((gridX * TILE_SIZE) as real + 16.0);
            var dy := (y + h / 2.0) - ((gridY * TILE_SIZE) as real + 16.0);
            b ==> -REACH < dx < REACH && -REACH < dy < REACH
    ensures var dx := (x + w / 2.0) - ((gridX * TILE_SIZE) as real + 16.0);
            var dy := (y + h / 2.0) - ((gridY * TILE_SIZE) as real + 16.0);
            -96.0 < dx < 96.0 && -96.0 < dy < 96.0 ==> b
  {
    var dx := (x + w / 2.0) - ((gridX * TILE_SIZE) as real + (TILE_SIZE / 2) as real);
    var dy := (y + h / 2.0) - ((gridY * TILE_SIZE) as real + (TILE_SIZE / 2) as real);
    SquareBound(dx, dy);
    SquareBound(dy, dx);
    SquaresBelow(dx, dy);
    dx * dx + dy * dy < REACH * REACH
  }

  /** One coordinate of a point inside the disc of radius REACH is below REACH. */
  lemma SquareBound(a: real, b: real)
    ensures a * a + b * b < REACH * REACH ==> -REACH < a < REACH
  {
  }

  /** A point less than 96 from the origin on each axis is inside the disc of radius REACH. */
  lemma SquaresBelow(a: real, b: real)
    ensures -96.0 < a < 96.0 && -96.0 < b < 96.0 ==> a * a + b * b < REACH * REACH
  {
    if -96.0 < a < 96.0 && -96.0 < b < 96.0 {
      assert a * a < 96.0 * 96.0;
      assert b * b < 96.0 * 96.0;
    }
  }
}
