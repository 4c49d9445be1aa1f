/** game.go's Player and Game: the truncating four-corner collision probe, updatePlayer,
    handleMining with its single shared progress counter, the command rules of
    handleInput, and createPlayer / NewGame. */
module GoGame {
  import opened Blocks
  import opened Terrain
  import opened GoWorld

  // ---------------------------------------------------------------------
  // Collision

  /** `int(p / TILE_SIZE)`: Go's conversion truncates toward zero. A non-negative
      coordinate lands in the cell that holds it; a negative one rounds up, to the cell
      boundary at or above it. */
  function CellTrunc(p: real): (g: int)
    ensures p >= 0.0 ==> 0 <= g && (g * TILE_SIZE) as real <= p < ((g + 1) * TILE_SIZE) as real
    ensures p < 0.0 ==> g <= 0 && ((g - 1) * TILE_SIZE) as real < p <= (g * TILE_SIZE) as real
  {
    if p >= 0.0 then (p / TILE_SIZE as real).Floor else -((-p) / TILE_SIZE as real).Floor
  }

  /** Every non-negative pixel coordinate inside cell g maps back to g. */
  lemma CellTruncOf(g: int, p: real)
    requires 0 <= g && (g * TILE_SIZE) as real <= p < ((g + 1) * TILE_SIZE) as real
    ensures CellTrunc(p) == g
  {
    var t := CellTrunc(p);
    assert (t * TILE_SIZE) as real < ((g + 1) * TILE_SIZE) as real;
    assert (g * TILE_SIZE) as real < ((t + 1) * TILE_SIZE) as real;
  }

  /** The pixel point (px, py) lies in an occupied cell; cells outside the grid are empty. */
  predicate SolidAt(world: array2<Option<Block>>, px: real, py: real)
    requires Shaped(world)
    reads world
  {
    var gx := CellTrunc(px);
    var gy := CellTrunc(py);
    InGrid(gx, gy) && world[gy, gx] != None
  }

  /** The four corners of a w by h box at (x, y), as checkCollision lists them. */
  predicate BoxHits(world: array2<Option<Block>>, x: real, y: real, w: real, h: real)
    requires Shaped(world)
    reads world
  {
    || SolidAt(world, x, y)
    || SolidAt(world, x + w - 1.0, y)
    || SolidAt(world, x, y + h - 1.0)
    || SolidAt(world, x + w - 1.0, y + h - 1.0)
  }

  /** A box standing on the first occupied cell of a column, two rows above it, has no
      corner in an occupied cell when that cell is not in the top two rows. */
  lemma ClearAboveTop(world: array2<Option<Block>>, col: int, top: int)
    requires Shaped(world) && 0 <= col < COLS && FirstOccupied(world, col, 0) == Some(top) && top >= 2
    ensures !BoxHits(world, (col * TILE_SIZE) as real, ((top - 2) * TILE_SIZE) as real,
                     TILE_SIZE as real, (2 * TILE_SIZE) as real)
  {
    var x := (col * TILE_SIZE) as real;
    var y := ((top - 2) * TILE_SIZE) as real;
    CellTruncOf(col, x);
    CellTruncOf(col, x + TILE_SIZE as real - 1.0);
    CellTruncOf(top - 2, y);
    CellTruncOf(top - 1, y + (2 * TILE_SIZE) as real - 1.0);
  }

  // ---------------------------------------------------------------------
  // Mining, as a function of the progress counter and the targeted cell

  /** One handleMining call on a cell holding `cell`, with the player within reach or
      not: the new progress and whether the block was extracted. */
  function Strike(progress: real, cell: Option<Block>, inReach: bool): (r: (real, bool))
    // nothing happens on an empty or unbreakable cell, or out of reach
    ensures cell == None || cell.value.kind == Unbreakable || !inReach ==> r == (progress, false)
    // extraction happens exactly when the raised progress reaches Hardness * 20
    ensures r.1 <==> cell.Some? && cell.value.kind != Unbreakable && inReach
                     && progress + 1.0 >= (GoBlockType(cell.value.kind).hardness * MINING_SCALE) as real
    ensures r.1 ==> r.0 == 0.0
    ensures !r.1 && cell.Some? && cell.value.kind != Unbreakable && inReach ==> r.0 == progress + 1.0
  {
    if cell == None || cell.value.kind == Unbreakable || !inReach then (progress, false)
    else
      var raised := progress + 1.0;
      if raised >= (GoBlockType(cell.value.kind).hardness * MINING_SCALE) as real then (0.0, true)
      else (raised, false)
  }

  /** The shared progress counter and the content of the cell being mined. */
  datatype Dig = Dig(progress: real, cell: Option<Block>, extracted: bool)

  /** n consecutive handleMining calls on one cell, within reach. */
  function Strikes(start: Dig, n: nat): Dig
  {
    if n == 0 then start
    else
      var prev := Strikes(start, n - 1);
      var r := Strike(prev.progress, prev.cell, true);
      Dig(r.0, if r.1 then None else prev.cell, r.1)
  }

  /** Before the threshold, every hit adds exactly 1 to whatever progress was there. */
  lemma {:induction false} StrikesCount(p: real, b: Block, n: nat)
    requires b.kind != Unbreakable && 1 <= n
    requires p + n as real < (GoBlockType(b.kind).hardness * MINING_SCALE) as real
    ensures Strikes(Dig(p, Some(b), false), n) == Dig(p + n as real, Some(b), false)
  {
    if n > 1 {
      StrikesCount(p, b, n - 1);
    }
  }

  /** Progress carries over from earlier hits on other cells: starting from p, the block
      is extracted by the first hit that brings p up to Hardness * 20. */
  lemma ExtractedAfter(p: real, b: Block, n: nat)
    requires b.kind != Unbreakable && 1 <= n
    requires p + (n - 1) as real < (GoBlockType(b.kind).hardness * MINING_SCALE) as real <= p + n as real
    ensures Strikes(Dig(p, Some(b), false), n) == Dig(0.0, None, true)
  {
    if n > 1 {
      StrikesCount(p, b, n - 1);
    }
  }

  // ---------------------------------------------------------------------
  // Movement, as a function of the world and the player's state

  /** What updatePlayer changes: position, vertical speed and the ground flag. */
  datatype Motion = Motion(x: real, y: real, velY: real, onGround: bool)

  /** One updatePlayer step of a w by h box at (x, y) moving at (velX, velY): gravity capped
      at MAX_FALL_SPEED, the horizontal move when its probe is clear (no friction here),
      then the vertical move when its probe is clear; a blocked vertical move stops the
      fall and grounds the player if it was falling. */
  function PhysicsStep(world: array2<Option<Block>>, x: real, y: real, velX: real, velY: real, w: real, h: real): (m: Motion)
    requires Shaped(world)
    reads world
    ensures m.velY <= MAX_FALL_SPEED
    // each axis either takes its whole step or none of it
    ensures m.x == x || m.x == x + velX
    ensures m.y == y || m.y == y + MinReal(velY + GRAVITY, MAX_FALL_SPEED)
    // X moves exactly when the horizontal probe at the old row is clear
    ensures BoxHits(world, x + velX, y, w, h) ==> m.x == x
    ensures !BoxHits(world, x + velX, y, w, h) ==> m.x == x + velX
    // Y moves, keeping the capped speed, exactly when the vertical probe at the new column
    // is clear; a refused step, up or down, stops the player
    ensures BoxHits(world, m.x, y + MinReal(velY + GRAVITY, MAX_FALL_SPEED), w, h) ==> m.y == y && m.velY == 0.0
    ensures var vy := MinReal(velY + GRAVITY, MAX_FALL_SPEED);
            !BoxHits(world, m.x, y + vy, w, h) ==> m.y == y + vy && m.velY == vy && !m.onGround
  {
    var vy := MinReal(velY + GRAVITY, MAX_FALL_SPEED);
    var nx := if BoxHits(world, x + velX, y, w, h) then x else x + velX;
    var blocked := BoxHits(world, nx, y + vy, w, h);
    Motion(nx, if blocked then y else y + vy, if blocked then 0.0 else vy, blocked && vy > 0.0)
  }

  /** A negative collision test stays negative across the step. */
  lemma StepKeepsClear(world: array2<Option<Block>>, x: real, y: real, velX: real, velY: real, w: real, h: real)
    requires Shaped(world) && !BoxHits(world, x, y, w, h)
    ensures var m := PhysicsStep(world, x, y, velX, velY, w, h);
            !BoxHits(world, m.x, m.y, w, h)
  {
  }

  /** The ground flag is set exactly when a downward step was refused, and the player is
      then at rest on the row it started from. */
  lemma StepGrounded(world: array2<Option<Block>>, x: real, y: real, velX: real, velY: real, w: real, h: real)
    requires Shaped(world)
    ensures var m := PhysicsStep(world, x, y, velX, velY, w, h);
            m.onGround <==> && velY + GRAVITY > 0.0
                            && BoxHits(world, m.x, y + MinReal(velY + GRAVITY, MAX_FALL_SPEED), w, h)
    ensures var m := PhysicsStep(world, x, y, velX, velY, w, h);
            m.onGround ==> m.y == y && m.velY == 0.0
  {
  }

  // ---------------------------------------------------------------------
  // The player and the game

  class Player {
    var x: real
    var y: real
    var velX: real
    var velY: real
    const width: real
    const height: real
    /** A missing kind counts 0, as indexing a Go map does. */
    var inventory: map<Kind, int>
    var onGround: bool
    var miningProgress: real

    /** The player literal of createPlayer, whose other fields keep their zero values. */
    constructor (x0: real, y0: real)
      ensures x == x0 && y == y0 && Spawned()
    {
      x, y := x0, y0;
      velX, velY := 0.0, 0.0;
      width, height := TILE_SIZE as real, (2 * TILE_SIZE) as real;
      inventory := map[];
      onGround := false;
      miningProgress := 0.0;
    }

    predicate Spawned()
      reads this
    {
      && velX == 0.0 && velY == 0.0 && !onGround && miningProgress == 0.0 && inventory == map[]
      && width == TILE_SIZE as real && height == (2 * TILE_SIZE) as real
    }

    function Count(k: Kind): int
      reads this
    {
      if k in inventory then inventory[k] else 0
    }
  }

  /** createPlayer: the player stands on the first block of the middle column (two rows
      above it), or at row 0 when that column is empty. */
  method CreatePlayer(world: array2<Option<Block>>) returns (player: Player)
    requires Shaped(world)
    ensures fresh(player) && player.Spawned()
    ensures player.x == (COLS / 2 * TILE_SIZE) as real
    ensures var top := FirstOccupied(world, COLS / 2, 0);
            player.y == if top.Some? then ((top.value - 2) * TILE_SIZE) as real else 0.0
  {
    var spawnX, spawnY := COLS / 2, 0;
    for y := 0 to ROWS
      invariant spawnY == 0
      invariant FirstOccupied(world, spawnX, 0) == FirstOccupied(world, spawnX, y)
    {
      if world[y, spawnX] != None {
        spawnY := y - 2;
        break;
      }
    }
    player := new Player((spawnX * TILE_SIZE) as real, (spawnY * TILE_SIZE) as real);
  }

  /** NewGame before it is stored: the generated world and the player createPlayer puts
      two rows above the first block of the middle column, whose collision test is
      negative there because the top rows are empty. */
  method Setup(d: Draws) returns (world: array2<Option<Block>>, player: Player)
    requires WellFormed(d)
    ensures Shaped(world) && fresh(world) && fresh(player) && player.Spawned()
    ensures forall r, c :: 0 <= r < ROWS && 0 <= c < COLS ==> world[r, c] == Lift(Generated(d, r, c))
    ensures var top := FirstOccupied(world, COLS / 2, 0);
            && top.Some? && top.value >= 2
            && player.x == (COLS / 2 * TILE_SIZE) as real
            && player.y == ((top.value - 2) * TILE_SIZE) as real
    ensures !BoxHits(world, player.x, player.y, player.width, player.height)
  {
    world := GenerateWorld(d);
    var col := COLS / 2;
    assert world[ROWS - 1, col] == Lift(Generated(d, ROWS - 1, col));
    var top := FirstOccupied(world, col, 0);
    assert world[0, col] == Lift(Generated(d, 0, col)) && world[1, col] == Lift(Generated(d, 1, col));
    GeneratedSky(d, 0, col);
    GeneratedSky(d, 1, col);
    ClearAboveTop(world, col, top.value);
    player := CreatePlayer(world);
  }

  /** What the mining part of handleInput does to the progress counter of a w by h player
      at (x, y): a click in the grid is one handleMining call, as `Strike` describes it
      with the reach test; no click, or one outside the grid, changes nothing. */
  function ClickEffect(world: array2<Option<Block>>, progress: real, x: real, y: real, w: real, h: real,
                       click: Option<(int, int)>): (r: (real, bool))
    requires Shaped(world)
    reads world
    ensures (|| click.None? || !InGrid(click.value.0, click.value.1)
             || !WithinReach(x, y, w, h, click.value.0, click.value.1)) ==> r == (progress, false)
    ensures r.1 ==> ClickedCell(world, click).Some? && r.0 == 0.0
  {
    if click.None? || !InGrid(click.value.0, click.value.1) then (progress, false)
    else Strike(progress, ClickedCell(world, click), WithinReach(x, y, w, h, click.value.0, click.value.1))
  }

  class Game {
    var world: array2<Option<Block>>
    var player: Player

    predicate Valid()
      reads this
    {
      Shaped(world)
    }

    /** No corner of the player's box lies in an occupied cell: the collision test of
        game.go is negative at the player's position. */
    predicate Clear()
      requires Valid()
      reads this, world, player
    {
      !BoxHits(world, player.x, player.y, player.width, player.height)
    }

    /** NewGame: generateWorld, then createPlayer. */
    constructor (d: Draws)
      requires WellFormed(d)
      ensures Valid() && fresh(world) && fresh(player) && player.Spawned()
      ensures forall r, c :: 0 <= r < ROWS && 0 <= c < COLS ==> world[r, c] == Lift(Generated(d, r, c))
      ensures var top := FirstOccupied(world, COLS / 2, 0);
              && top.Some? && top.value >= 2
              && player.x == (COLS / 2 * TILE_SIZE) as real
              && player.y == ((top.value - 2) * TILE_SIZE) as real
      ensures Clear()
    {
      var w, p := Setup(d);
      world := w;
      player := p;
    }

    /** checkCollision: probes the four corners in order and stops at the first one in an
        occupied cell. */
    method CheckCollision(px: real, py: real) returns (hit: bool)
      requires Valid()
      ensures hit == BoxHits(world, px, py, player.width, player.height)
    {
      var points := [(px, py), (px + player.width - 1.0, py), (px, py + player.height - 1.0),
                     (px + player.width - 1.0, py + player.height - 1.0)];
      for i := 0 to |points|
        invariant forall j :: 0 <= j < i ==> !SolidAt(world, points[j].0, points[j].1)
      {
        var gridX := CellTrunc(points[i].0);
        var gridY := CellTrunc(points[i].1);
        if gridX >= 0 && gridX < COLS && gridY >= 0 && gridY < ROWS {
          if world[gridY, gridX] != None {
            assert SolidAt(world, points[i].0, points[i].1);
            return true;
          }
        }
      }
      assert !SolidAt(world, points[0].0, points[0].1) && !SolidAt(world, points[1].0, points[1].1);
      assert !SolidAt(world, points[2].0, points[2].1) && !SolidAt(world, points[3].0, points[3].1);
      return false;
    }

    /** The computation of updatePlayer from the player's current state: gravity, the
        horizontal probe, then the vertical probe, as `PhysicsStep` gives them. */
    method Move() returns (m: Motion)
      requires Valid()
      ensures m == PhysicsStep(world, player.x, player.y, player.velX, player.velY, player.width, player.height)
    {
      var velY := MinReal(player.velY + GRAVITY, MAX_FALL_SPEED);

      var newX := player.x + player.velX;
      var newY := player.y + velY;

      var x := player.x;
      var hitX := CheckCollision(newX, player.y);
      if !hitX {
        x := newX;
      }

      var y, onGround := player.y, false;
      var hitY := CheckCollision(x, newY);
      if !hitY {
        y := newY;
      } else {
        if velY > 0.0 {
          onGround := true;
        }
        velY := 0.0;
      }
      m := Motion(x, y, velY, onGround);
    }

    /** updatePlayer: the player takes the position, vertical speed and ground flag that
        `PhysicsStep` gives; its other fields do not change. */
    method UpdatePlayer()
      requires Valid()
      modifies player`x, player`y, player`velY, player`onGround
      ensures Motion(player.x, player.y, player.velY, player.onGround)
              == old(PhysicsStep(world, player.x, player.y, player.velX, player.velY, player.width, player.height))
    {
      var m := Move();
      player.x, player.y, player.velY, player.onGround := m.x, m.y, m.velY, m.onGround;
    }

    /** handleMining on an in-grid cell, as `Strike` describes it with the reach test of
        the player's position; on extraction the cell is emptied and its kind credited
        once; no other cell or inventory entry changes. */
    method HandleMining(gridX: int, gridY: int)
      requires Valid() && InGrid(gridX, gridY)
      modifies player`miningProgress, player`inventory, world
      ensures var cell := old(world[gridY, gridX]);
              var r := Strike(old(player.miningProgress), cell,
                              WithinReach(player.x, player.y, player.width, player.height, gridX, gridY));
              && player.miningProgress == r.0
              && (r.1 ==> world[gridY, gridX] == None
                          && player.inventory == old(player.inventory)[cell.value.kind := old(player.Count(cell.value.kind)) + 1])
              && (!r.1 ==> player.inventory == old(player.inventory))
              && forall r', c :: 0 <= r' < ROWS && 0 <= c < COLS && (!r.1 || (r', c) != (gridY, gridX))
                   ==> world[r', c] == old(world[r', c])
    {
      if world[gridY, gridX] == None {
        return;
      }

      var block := world[gridY, gridX].value;
      if block.kind == Unbreakable {
        return;
      }

      if WithinReach(player.x, player.y, player.width, player.height, gridX, gridY) {
        player.miningProgress := player.miningProgress + 1.0;
        if player.miningProgress >= (GoBlockType(block.kind).hardness * MINING_SCALE) as real {
          player.inventory := player.inventory[block.kind := player.Count(block.kind) + 1];
          world[gridY, gridX] := None;
          player.miningProgress := 0.0;
        }
      }
    }

    /** The movement part of handleInput: left sets VelX to -6, otherwise right sets it to
        6, otherwise friction scales it by 0.8; a jump sets VelY to JUMP_POWER only on the
        ground. */
    method Steer(left: bool, right: bool, jump: bool)
      modifies player`velX, player`velY
      ensures player.velX == if left then -6.0 else if right then 6.0 else old(player.velX) * 0.8
      ensures player.velY == if jump && player.onGround then JUMP_POWER else old(player.velY)
    {
      if left {
        player.velX := -6.0;
      } else if right {
        player.velX := 6.0;
      } else {
        player.velX := player.velX * 0.8;
      }

      if jump && player.onGround {
        player.velY := JUMP_POWER;
      }
    }

    /** The mining part of handleInput: a click goes to handleMining only when its cell is
        in the grid, with the effect `ClickEffect` gives. On extraction the cell is emptied
        and its kind credited once; no other cell or inventory entry changes. The cell
        under the mouse is given, not computed from the cursor and the camera. */
    method Click(click: Option<(int, int)>)
      requires Valid()
      modifies player`miningProgress, player`inventory, world
      ensures var cell := old(ClickedCell(world, click));
              var e := old(ClickEffect(world, player.miningProgress, player.x, player.y, player.width, player.height, click));
              && player.miningProgress == e.0
              && (e.1 ==> world[click.value.1, click.value.0] == None
                          && player.inventory == old(player.inventory)[cell.value.kind := old(player.Count(cell.value.kind)) + 1])
              && (!e.1 ==> player.inventory == old(player.inventory))
      ensures var e := old(ClickEffect(world, player.miningProgress, player.x, player.y, player.width, player.height, click));
              forall r, c :: 0 <= r < ROWS && 0 <= c < COLS && (!e.1 || click != Some((c, r)))
                ==> world[r, c] == old(world[r, c])
    {
      if click.Some? {
        var gridX, gridY := click.value.0, click.value.1;
        if gridX >= 0 && gridX < COLS && gridY >= 0 && gridY < ROWS {
          HandleMining(gridX, gridY);
        }
      }
    }

    /** handleInput: Steer, then Click. Mining only empties cells, so a player whose
        collision test was negative still has a negative one. */
    method HandleInput(left: bool, right: bool, jump: bool, click: Option<(int, int)>)
      requires Valid()
      modifies player`velX, player`velY, player`miningProgress, player`inventory, world
      ensures player.velX == if left then -6.0 else if right then 6.0 else old(player.velX) * 0.8
      ensures player.velY == if jump && player.onGround then JUMP_POWER else old(player.velY)
      ensures var cell := old(ClickedCell(world, click));
              var e := old(ClickEffect(world, player.miningProgress, player.x, player.y, player.width, player.height, click));
              && player.miningProgress == e.0
              && (e.1 ==> world[click.value.1, click.value.0] == None
                          && player.inventory == old(player.inventory)[cell.value.kind := old(player.Count(cell.value.kind)) + 1])
              && (!e.1 ==> player.inventory == old(player.inventory))
      ensures var e := old(ClickEffect(world, player.miningProgress, player.x, player.y, player.width, player.height, click));
              forall r, c :: 0 <= r < ROWS && 0 <= c < COLS && (!e.1 || click != Some((c, r)))
                ==> world[r, c] == old(world[r, c])
      ensures forall r, c :: 0 <= r < ROWS && 0 <= c < COLS ==> world[r, c] == None || world[r, c] == old(world[r, c])
      ensures old(Clear()) ==> Clear()
    {
      Steer(left, right, jump);
      Click(click);
    }

    /** Update without the camera: handleInput, then updatePlayer. The progress counter,
        inventory and grid change as the click gives them; VelX is the steered speed and
        the rest of the motion is `PhysicsStep` from the steered speeds over the grid as the click
        left it. A negative collision test stays negative. */
    method Tick(left: bool, right: bool, jump: bool, click: Option<(int, int)>)
      requires Valid()
      modifies player, world
      ensures Valid()
      ensures var cell := old(ClickedCell(world, click));
              var e := old(ClickEffect(world, player.miningProgress, player.x, player.y, player.width, player.height, click));
              && player.miningProgress == e.0
              && (e.1 ==> world[click.value.1, click.value.0] == None
                          && player.inventory == old(player.inventory)[cell.value.kind := old(player.Count(cell.value.kind)) + 1])
              && (!e.1 ==> player.inventory == old(player.inventory))
      ensures var e := old(ClickEffect(world, player.miningProgress, player.x, player.y, player.width, player.height, click));
              forall r, c :: 0 <= r < ROWS && 0 <= c < COLS && (!e.1 || click != Some((c, r)))
                ==> world[r, c] == old(world[r, c])
      ensures var vx := if left then -6.0 else if right then 6.0 else old(player.velX) * 0.8;
              var vy := if jump && old(player.onGround) then JUMP_POWER else old(player.velY);
              && player.velX == vx
              && Motion(player.x, player.y, player.velY, player.onGround)
                 == PhysicsStep(world, old(player.x), old(player.y), vx, vy, player.width, player.height)
      ensures old(Clear()) ==> Clear()
    {
      HandleInput(left, right, jump, click);
      UpdatePlayer();
    }
  }
}
