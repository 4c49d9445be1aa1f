/** game.py's Player: the four-corner collision probe, the per-tick physics update and
    the per-target mining state machine. Positions and velocities are exact reals. */
module PyPlayer {
  import opened Blocks

  /** A grid cell as mine_block receives it: (grid_x, grid_y). */
  type Pos = (int, int)

  // ---------------------------------------------------------------------
  // Collision

  /** `int(p // TILE_SIZE)`: Python's floor division. */
  function CellFloor(p: real): (g: int)
    ensures (g * TILE_SIZE) as real <= p < ((g + 1) * TILE_SIZE) as real
  {
    (p / TILE_SIZE as real).Floor
  }

  /** Every pixel coordinate inside cell g maps back to g. */
  lemma CellFloorOf(g: int, p: real)
    requires (g * TILE_SIZE) as real <= p < ((g + 1) * TILE_SIZE) as real
    ensures CellFloor(p) == g
  {
    var f := CellFloor(p);
    assert (f * TILE_SIZE) as real < ((g + 1) * TILE_SIZE) as real;
    assert (g * TILE_SIZE) as real < ((f + 1) * TILE_SIZE) as real;
  }

  /** The pixel point (px, py) lies in an occupied cell; cells outside the grid are empty. */
  predicate SolidAt(world: array2<Option<Kind>>, px: real, py: real)
    requires Shaped(world)
    reads world
  {
    var gx := CellFloor(px);
    var gy := CellFloor(py);
    InGrid(gx, gy) && world[gy, gx] != None
  }

  /** The collision test of a w by h box with top-left (x, y): one of its four corners
      (x, y), (x + w - 1, y), (x, y + h - 1), (x + w - 1, y + h - 1) is in an occupied cell. */
  predicate BoxHits(world: array2<Option<Kind>>, x: real, y: real, w: real, h: real)
    requires Shaped(world)
    reads world
  {
    || SolidAt(world, x, y)
    || SolidAt(world, x + w - 1.0, y)
    || SolidAt(world, x, y + h - 1.0)
    || SolidAt(world, x + w - 1.0, y + h - 1.0)
  }

  /** Cell (col, row) meets the box's pixel extent, x..x+w-1 across and y..y+h-1 down. */
  predicate Covers(x: real, y: real, w: real, h: real, col: int, row: int)
  {
    && (col * TILE_SIZE) as real <= x + w - 1.0 && x < ((col + 1) * TILE_SIZE) as real
    && (row * TILE_SIZE) as real <= y + h - 1.0 && y < ((row + 1) * TILE_SIZE) as real
  }

  /** The four corners miss the middle row: a two-tile-tall box whose top is not on a row
      boundary spans three rows, and a block in the middle one goes unnoticed. At (26, 10)
      the box covers rows 0..2 and columns 0..1, and only rows 0 and 2 are probed. */
  lemma CornersMissMiddleRow(world: array2<Option<Kind>>)
    requires Shaped(world) && world[1, 1] != None
    requires world[0, 0] == None && world[0, 1] == None && world[2, 0] == None && world[2, 1] == None
    ensures Covers(26.0, 10.0, TILE_SIZE as real, (2 * TILE_SIZE) as real, 1, 1)
    ensures !BoxHits(world, 26.0, 10.0, TILE_SIZE as real, (2 * TILE_SIZE) as real)
  {
    CellFloorOf(0, 26.0);
    CellFloorOf(1, 57.0);
    CellFloorOf(0, 10.0);
    CellFloorOf(2, 73.0);
  }

  /** The corners are enough for a player-sized box whose top lies on a row boundary: it
      covers at most two columns and exactly two rows, all four probed, so a negative test
      means every cell the box covers is empty. */
  lemma {:induction false} AlignedCornersCover(world: array2<Option<Kind>>, x: real, g: int)
    requires Shaped(world)
    requires !BoxHits(world, x, (g * TILE_SIZE) as real, TILE_SIZE as real, (2 * TILE_SIZE) as real)
    ensures forall col, row :: InGrid(col, row) && Covers(x, (g * TILE_SIZE) as real, TILE_SIZE as real, (2 * TILE_SIZE) as real, col, row)
              ==> world[row, col] == None
  {
    var y := (g * TILE_SIZE) as real;
    var w, h := TILE_SIZE as real, (2 * TILE_SIZE) as real;
    var c0 := CellFloor(x);
    CellFloorOf(g, y);
    CellFloorOf(g + 1, y + h - 1.0);
    forall col, row | InGrid(col, row) && Covers(x, y, w, h, col, row)
      ensures world[row, col] == None
    {
      assert c0 <= col <= c0 + 1;
      assert g <= row <= g + 1;
      if col == c0 + 1 {
        CellFloorOf(c0 + 1, x + w - 1.0);
      }
    }
  }

  // ---------------------------------------------------------------------
  // Mining, as a function of the mining state and the targeted cell

  datatype MiningState = MiningState(progress: int, target: Option<Pos>)

  /** What mine_block hands back: True or False, or the KeyError that its hardness lookup
      raises for a kind without a 'hardness' entry. */
  datatype MineOutcome = Returned(mined: bool) | KeyError

  /** Progress and target after an accepted hit on pos, before the threshold test: a new
      target restarts the count, so progress is 1 after the first hit on it. */
  function Advance(st: MiningState, pos: Pos): (r: MiningState)
    ensures r.target == Some(pos)
    ensures st.target == Some(pos) ==> r.progress == st.progress + 1
    ensures st.target != Some(pos) ==> r.progress == 1
  {
    var base := if st.target != Some(pos) then MiningState(0, Some(pos)) else st;
    MiningState(base.progress + 1, base.target)
  }

  /** One call of mine_block on pos, where `cell` is the content of that cell (`None` for
      an empty cell and for a pos outside the grid): the next mining state and the outcome. */
  function Mine(st: MiningState, pos: Pos, cell: Option<Kind>): (r: (MiningState, MineOutcome))
    // rejected: nothing changes
    ensures cell == None || cell == Some(Unbreakable) ==> r == (st, Returned(false))
    // the hardness lookup fails exactly for wood and leaves, after the hit was counted
    ensures r.1 == KeyError <==> cell == Some(Wood) || cell == Some(Leaves)
    ensures r.1 == KeyError ==> r.0 == Advance(st, pos)
    // completion clears the state; a hit that does not complete keeps the advanced state
    ensures r.1 == Returned(true) ==> r.0 == MiningState(0, None)
    ensures r.1 == Returned(false) && cell.Some? && cell != Some(Unbreakable) ==> r.0 == Advance(st, pos)
    // a block is removed exactly when the advanced progress reaches 20 * hardness
    ensures r.1 == Returned(true) <==>
              cell.Some? && PyHardnessOf(cell.value).Some? && PyHardnessOf(cell.value).value.Finite?
              && Advance(st, pos).progress >= PyHardnessOf(cell.value).value.n * MINING_SCALE
  {
    match cell
    case None => (st, Returned(false))
    case Some(k) =>
      if k == Unbreakable then (st, Returned(false))
      else
        var hit := Advance(st, pos);
        match PyHardnessOf(k)
        case None => (hit, KeyError)
        case Some(Infinite) => (hit, Returned(false))
        case Some(Finite(h)) =>
          if hit.progress >= h * MINING_SCALE then (MiningState(0, None), Returned(true))
          else (hit, Returned(false))
  }

  /** The mining state, the content of the targeted cell and the outcome of the last call. */
  datatype Site = Site(state: MiningState, cell: Option<Kind>, last: MineOutcome)

  /** One mine_block call on pos; a completed hit empties the cell. */
  function Step(s: Site, pos: Pos): (r: Site)
    ensures r.last == Returned(true) <==> s.cell.Some? && r.cell == None
    ensures r.last != Returned(true) ==> r.cell == s.cell
  {
    var m := Mine(s.state, pos, s.cell);
    Site(m.0, if m.1 == Returned(true) then None else s.cell, m.1)
  }

  /** n consecutive mine_block calls on pos. */
  function Hits(s: Site, pos: Pos, n: nat): Site
  {
    if n == 0 then s else Step(Hits(s, pos, n - 1), pos)
  }

  /** Before the threshold, the n-th consecutive hit on a fresh target leaves progress n. */
  lemma {:induction false} HitsCount(st: MiningState, pos: Pos, k: Kind, h: nat, n: nat)
    requires PyHardnessOf(k) == Some(Finite(h))
    requires st.target != Some(pos)
    requires 1 <= n < h * MINING_SCALE
    ensures Hits(Site(st, Some(k), Returned(false)), pos, n)
         == Site(MiningState(n, Some(pos)), Some(k), Returned(false))
  {
    if n > 1 {
      HitsCount(st, pos, k, h, n - 1);
    }
  }

  /** A block of hardness h on a fresh target is removed by the n-th consecutive hit,
      n = 20 * h (20 for dirt, 40 for stone), which also clears the mining state. */
  lemma MinedAtThreshold(st: MiningState, pos: Pos, k: Kind, h: nat, n: nat)
    requires PyHardnessOf(k) == Some(Finite(h))
    requires st.target != Some(pos)
    requires n == h * MINING_SCALE
    ensures Hits(Site(st, Some(k), Returned(false)), pos, n) == Site(MiningState(0, None), None, Returned(true))
  {
    HitsCount(st, pos, k, h, n - 1);
  }

  /** However often an unbreakable cell is hit, it stays and the mining state is untouched. */
  lemma {:induction false} UnbreakableStays(st: MiningState, pos: Pos, n: nat)
    ensures Hits(Site(st, Some(Unbreakable), Returned(false)), pos, n)
         == Site(st, Some(Unbreakable), Returned(false))
  {
    if n > 0 {
      UnbreakableStays(st, pos, n - 1);
    }
  }

  // ---------------------------------------------------------------------
  // Movement, as a function of the world and the player's state

  /** What the physics part of update changes: position, speeds and the ground flag. */
  datatype Motion = Motion(x: real, y: real, velX: real, velY: real, onGround: bool)

  /** One physics step of a w by h box at (x, y) moving at (velX, velY): gravity capped at
      MAX_FALL_SPEED, the horizontal move when its probe is clear, friction, then the
      vertical move when its probe is clear; a blocked vertical move stops the fall and
      grounds the player if it was falling. */
  function PhysicsStep(world: array2<Option<Kind>>, x: real, y: real, velX: real, velY: real, w: real, h: real): (m: Motion)
    requires Shaped(world)
    reads world
    ensures m.velY <= MAX_FALL_SPEED
    ensures m.velX == velX * 0.8
    // each axis either takes its whole step or none of it
    ensures m.x == x || m.x == x + velX
    ensures m.y == y || m.y == y + (if velY + GRAVITY < MAX_FALL_SPEED then velY + GRAVITY else MAX_FALL_SPEED)
    // x moves exactly when the horizontal probe at the old row is clear
    ensures BoxHits(world, x + velX, y, w, h) ==> m.x == x
    ensures !BoxHits(world, x + velX, y, w, h) ==> m.x == x + velX
    // y moves, keeping the capped speed, exactly when the vertical probe at the new column
    // is clear; a refused step, up or down, stops the player
    ensures var vy := if velY + GRAVITY < MAX_FALL_SPEED then velY + GRAVITY else MAX_FALL_SPEED;
            BoxHits(world, m.x, y + vy, w, h) ==> m.y == y && m.velY == 0.0
    ensures var vy := if velY + GRAVITY < MAX_FALL_SPEED then velY + GRAVITY else MAX_FALL_SPEED;
            !BoxHits(world, m.x, y + vy, w, h) ==> m.y == y + vy && m.velY == vy && !m.onGround
  {
    var vy := if velY + GRAVITY < MAX_FALL_SPEED then velY + GRAVITY else MAX_FALL_SPEED;
    var nx := if BoxHits(world, x + velX, y, w, h) then x else x + velX;
    var blocked := BoxHits(world, nx, y + vy, w, h);
    Motion(nx, if blocked then y else y + vy, velX * 0.8, if blocked then 0.0 else vy, blocked && vy > 0.0)
  }

  /** A negative collision test stays negative across the step. */
  lemma StepKeepsClear(world: array2<Option<Kind>>, x: real, y: real, velX: real, velY: real, w: real, h: real)
    requires Shaped(world) && !BoxHits(world, x, y, w, h)
    ensures var m := PhysicsStep(world, x, y, velX, velY, w, h);
            !BoxHits(world, m.x, m.y, w, h)
  {
  }

  /** The ground flag is set exactly when a downward step was refused, and the player is
      then at rest on the row it started from. */
  lemma StepGrounded(world: array2<Option<Kind>>, x: real, y: real, velX: real, velY: real, w: real, h: real)
    requires Shaped(world)
    ensures var m := PhysicsStep(world, x, y, velX, velY, w, h);
            m.onGround <==> && velY + GRAVITY > 0.0
                            && BoxHits(world, m.x, y + (if velY + GRAVITY < MAX_FALL_SPEED then velY + GRAVITY else MAX_FALL_SPEED), w, h)
    ensures var m := PhysicsStep(world, x, y, velX, velY, w, h);
            m.onGround ==> m.y == y && m.velY == 0.0
  {
  }

  // ---------------------------------------------------------------------
  // The player

  class Player {
    var x: real
    var y: real
    var velX: real
    var velY: real
    var onGround: bool
    var miningProgress: int
    var miningTarget: Option<Pos>
    /** A defaultdict(int): a missing kind counts 0. */
    var inventory: map<Kind, int>
    const width: real
    const height: real

    constructor (x0: real, y0: real)
      ensures x == x0 && y == y0 && Spawned()
    {
      x, y := x0, y0;
      velX, velY := 0.0, 0.0;
      onGround := false;
      miningProgress, miningTarget := 0, None;
      inventory := map[];
      width, height := TILE_SIZE as real, (2 * TILE_SIZE) as real;
    }

    /** The state __init__ leaves: at rest, airborne, no mining target, nothing mined,
        one tile wide and two tiles tall. */
    predicate Spawned()
      reads this
    {
      && velX == 0.0 && velY == 0.0 && !onGround
      && miningProgress == 0 && miningTarget == None && inventory == map[]
      && width == TILE_SIZE as real && height == (2 * TILE_SIZE) as real
    }

    function Count(k: Kind): int
      reads this
    {
      if k in inventory then inventory[k] else 0
    }

    /** check_collision: probes the four corners in order and stops at the first one in an
        occupied cell. */
    method CheckCollision(px: real, py: real, world: array2<Option<Kind>>) returns (hit: bool)
      requires Shaped(world)
      ensures hit == BoxHits(world, px, py, width, height)
    {
      var points := [(px, py), (px + width - 1.0, py), (px, py + height - 1.0),
                     (px + width - 1.0, py + height - 1.0)];
      var i := 0;
      while i < |points|
        invariant 0 <= i <= |points|
        invariant forall j :: 0 <= j < i ==> !SolidAt(world, points[j].0, points[j].1)
      {
        var gridX := CellFloor(points[i].0);
        var gridY := CellFloor(points[i].1);
        if 0 <= gridX < COLS && 0 <= gridY < ROWS {
          if world[gridY, gridX] != None {
            assert SolidAt(world, points[i].0, points[i].1);
            return true;
          }
        }
        i := i + 1;
      }
      assert !SolidAt(world, points[0].0, points[0].1) && !SolidAt(world, points[1].0, points[1].1);
      assert !SolidAt(world, points[2].0, points[2].1) && !SolidAt(world, points[3].0, points[3].1);
      return false;
    }

    /** The computation of update from the player's current state: gravity, the
        horizontal probe, friction, then the vertical probe, as `PhysicsStep` gives them. */
    method Move(world: array2<Option<Kind>>) returns (m: Motion)
      requires Shaped(world)
      ensures m == PhysicsStep(world, x, y, velX, velY, width, height)
    {
      var vy := if velY + GRAVITY < MAX_FALL_SPEED then velY + GRAVITY else MAX_FALL_SPEED;

      var newX := x + velX;
      var newY := y + vy;

      var nx := x;
      var hitX := CheckCollision(newX, y, world);
      if !hitX {
        nx := newX;
      }
      var vx := velX * 0.8;

      var ny, grounded := y, false;
      var hitY := CheckCollision(nx, newY, world);
      if !hitY {
        ny := newY;
      } else {
        if vy > 0.0 {
          grounded := true;
        }
        vy := 0.0;
      }
      m := Motion(nx, ny, vx, vy, grounded);
    }

    /** The physics part of update: the player takes the position, speeds and ground flag
        that `PhysicsStep` gives; its other fields do not change. */
    method Update(world: array2<Option<Kind>>)
      requires Shaped(world)
      modifies this`x, this`y, this`velX, this`velY, this`onGround
      ensures Motion(x, y, velX, velY, onGround) == old(PhysicsStep(world, x, y, velX, velY, width, height))
    {
      var m := Move(world);
      x, y, velX, velY, onGround := m.x, m.y, m.velX, m.velY, m.onGround;
    }

    /** mine_block: one accepted hit on pos, as `Mine` describes it; on completion the
        cell is emptied and its kind credited once; no other cell or inventory entry changes. */
    method MineBlock(world: array2<Option<Kind>>, pos: Pos) returns (out: MineOutcome)
      requires Shaped(world)
      modifies this`miningProgress, this`miningTarget, this`inventory, world
      ensures var cell := if InGrid(pos.0, pos.1) then old(world[pos.1, pos.0]) else None;
              var r := Mine(MiningState(old(miningProgress), old(miningTarget)), pos, cell);
              && out == r.1
              && MiningState(miningProgress, miningTarget) == r.0
              && (out == Returned(true) ==>
                    && world[pos.1, pos.0] == None
                    && inventory == old(inventory)[cell.value := old(Count(cell.value)) + 1])
      ensures out != Returned(true) ==> inventory == old(inventory)
      ensures forall r, c :: 0 <= r < ROWS && 0 <= c < COLS && (out != Returned(true) || (c, r) != pos)
                ==> world[r, c] == old(world[r, c])
    {
      var gridX, gridY := pos.0, pos.1;
      if 0 <= gridX < COLS && 0 <= gridY < ROWS && world[gridY, gridX] != None {
        var block := world[gridY, gridX].value;
        if block == Unbreakable {
          return Returned(false);
        }
        if miningTarget != Some(pos) {
          miningProgress := 0;
          miningTarget := Some(pos);
        }
        miningProgress := miningProgress + 1;
        var hardness := PyHardnessOf(block);
        if hardness == None {
          // BLOCK_TYPES[block['type']]['hardness'] raises KeyError
          return KeyError;
        }
        if hardness.value.Finite? && miningProgress >= hardness.value.n * MINING_SCALE {
          world[gridY, gridX] := None;
          inventory := inventory[block := Count(block) + 1];
          miningProgress := 0;
          miningTarget := None;
          return Returned(true);
        }
      }
      return Returned(false);
    }
  }
}
