/** Where the two ports of the game part ways on the same input: how mining progress
    survives a change of target, what wood costs, and how a pixel coordinate left of the
    grid is mapped to a cell. */
module Variants {
  import opened Blocks
  import PyPlayer
  import GoWorld
  import GoGame

  /** Hitting one stone 19 to 39 times and then turning to a dirt cell, in game.py: the
      count restarts on the new target, so progress is 1 and the dirt is still there. */
  lemma TargetSwitchRestarts(st: PyPlayer.MiningState, a: PyPlayer.Pos, b: PyPlayer.Pos, n: nat)
    requires a != b && st.target != Some(a)
    requires 19 <= n < 2 * MINING_SCALE
    ensures PyPlayer.Hits(PyPlayer.Site(st, Some(Stone), PyPlayer.Returned(false)), a, n).cell == Some(Stone)
    ensures PyPlayer.Mine(PyPlayer.Hits(PyPlayer.Site(st, Some(Stone), PyPlayer.Returned(false)), a, n).state, b, Some(Dirt))
            == (PyPlayer.MiningState(1, Some(b)), PyPlayer.Returned(false))
  {
    PyPlayer.HitsCount(st, a, Stone, 2, n);
  }

  /** The same sequence in game.go: the single counter carries the stone's hits over, so
      the dirt comes out on the first hit. */
  lemma TargetSwitchCarriesOver(n: nat)
    requires 19 <= n < 2 * MINING_SCALE
    ensures GoGame.Strikes(GoGame.Dig(0.0, Some(GoWorld.Placed(Stone)), false), n).cell == Some(GoWorld.Placed(Stone))
    ensures GoGame.Strike(GoGame.Strikes(GoGame.Dig(0.0, Some(GoWorld.Placed(Stone)), false), n).progress,
                          Some(GoWorld.Placed(Dirt)), true) == (0.0, true)
  {
    GoGame.StrikesCount(0.0, GoWorld.Placed(Stone), n);
  }

  /** Wood: game.py's table has no hardness for it, so the first hit raises KeyError;
      game.go gives it hardness 1, so it takes 19 hits of progress and comes out on the
      20th. */
  lemma WoodDiverges(st: PyPlayer.MiningState, pos: PyPlayer.Pos)
    ensures PyPlayer.Mine(st, pos, Some(Wood)).1 == PyPlayer.KeyError
    ensures forall n: nat :: 1 <= n < MINING_SCALE ==>
              GoGame.Strikes(GoGame.Dig(0.0, Some(GoWorld.Placed(Wood)), false), n)
              == GoGame.Dig(n as real, Some(GoWorld.Placed(Wood)), false)
    ensures GoGame.Strikes(GoGame.Dig(0.0, Some(GoWorld.Placed(Wood)), false), MINING_SCALE)
            == GoGame.Dig(0.0, None, true)
  {
    forall n: nat | 1 <= n < MINING_SCALE
      ensures GoGame.Strikes(GoGame.Dig(0.0, Some(GoWorld.Placed(Wood)), false), n)
              == GoGame.Dig(n as real, Some(GoWorld.Placed(Wood)), false)
    {
      GoGame.StrikesCount(0.0, GoWorld.Placed(Wood), n);
    }
    GoGame.ExtractedAfter(0.0, GoWorld.Placed(Wood), MINING_SCALE);
  }

  /** Floor division and truncation name the same cell for every non-negative coordinate,
      and part ways on the strip just left of the grid: game.py maps it to column -1,
      game.go to column 0. */
  lemma CellMapping(p: real)
    ensures p >= 0.0 ==> PyPlayer.CellFloor(p) == GoGame.CellTrunc(p)
    ensures -(TILE_SIZE as real) < p < 0.0 ==> PyPlayer.CellFloor(p) == -1 && GoGame.CellTrunc(p) == 0
  {
    var g := GoGame.CellTrunc(p);
  }

  /** Two grids holding the same kinds, one as game.py stores them and one as game.go does. */
  predicate SameKinds(py: array2<Option<Kind>>, go: array2<Option<GoWorld.Block>>)
    requires Shaped(py) && Shaped(go)
    reads py, go
  {
    forall r, c :: 0 <= r < ROWS && 0 <= c < COLS ==> go[r, c] == GoWorld.Lift(py[r, c])
  }

  /** On grids holding the same kinds, a box whose top-left corner is at non-negative
      coordinates collides in one port exactly when it collides in the other. */
  lemma SameCollisionOnGrid(py: array2<Option<Kind>>, go: array2<Option<GoWorld.Block>>,
                            x: real, y: real, w: real, h: real)
    requires Shaped(py) && Shaped(go) && SameKinds(py, go)
    requires x >= 0.0 && y >= 0.0 && w >= 1.0 && h >= 1.0
    ensures PyPlayer.BoxHits(py, x, y, w, h) <==> GoGame.BoxHits(go, x, y, w, h)
  {
    SameSolid(py, go, x, y);
    SameSolid(py, go, x + w - 1.0, y);
    SameSolid(py, go, x, y + h - 1.0);
    SameSolid(py, go, x + w - 1.0, y + h - 1.0);
  }

  /** The corner test agrees at one non-negative point. */
  lemma SameSolid(py: array2<Option<Kind>>, go: array2<Option<GoWorld.Block>>, px: real, py': real)
    requires Shaped(py) && Shaped(go) && SameKinds(py, go)
    requires px >= 0.0 && py' >= 0.0
    ensures PyPlayer.SolidAt(py, px, py') <==> GoGame.SolidAt(go, px, py')
  {
    CellMapping(px);
    CellMapping(py');
    var gx, gy := PyPlayer.CellFloor(px), PyPlayer.CellFloor(py');
    if InGrid(gx, gy) {
      assert go[gy, gx] == GoWorld.Lift(py[gy, gx]);
    }
  }

  /** Just past the left edge, a player box whose corners all lie in the strip left of
      column 0 is clear in game.py but collides with a block in the top-left cell in
      game.go. */
  lemma LeftEdgeDiverges(py: array2<Option<Kind>>, go: array2<Option<GoWorld.Block>>, x: real)
    requires Shaped(py) && Shaped(go) && SameKinds(py, go)
    requires -(TILE_SIZE as real) < x < -(TILE_SIZE as real) + 1.0
    requires py[0, 0] != None
    ensures !PyPlayer.BoxHits(py, x, 0.0, TILE_SIZE as real, (2 * TILE_SIZE) as real)
    ensures GoGame.BoxHits(go, x, 0.0, TILE_SIZE as real, (2 * TILE_SIZE) as real)
  {
    CellMapping(x);
    CellMapping(x + TILE_SIZE as real - 1.0);
    CellMapping(0.0);
    assert go[0, 0] == GoWorld.Lift(py[0, 0]);
  }
}
