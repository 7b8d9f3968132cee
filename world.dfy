/**
 * The game world of src/game/world.rs: its size, the cell test that gates a
 * play, and the isometric transform with the fixed 32x32 tile size.
 */
module GameWorld {
  import opened Numeric
  import opened Vectors
  import Isometric

  const TileSize: IVec2 := IVec2(32, 32)

  /** `World::new(width, heigth)` stores both sizes unchanged. */
  datatype World = World(width: U32, heigth: U32)

  function IHat(): Vec2 {
    Mul(Vec2(0.5, 0.25), AsVec2(TileSize))
  }

  function JHat(): Vec2 {
    Mul(Vec2(-0.5, 0.25), AsVec2(TileSize))
  }

  /** World position to map cell: the inverse basis applied, then truncated to `i32`. */
  function WorldToMap(worldPos: Vec2): IVec2 {
    var basis := Mat2(IHat(), JHat());
    assert Determinant(basis) == 256.0;
    AsIVec2(MulVec2(Inverse(basis), worldPos))
  }

  /** Map cell to world position: the basis applied, then the half-tile offset added. */
  function MapToWorld(mapPos: IVec2): Vec2 {
    var transform := Mat2(IHat(), JHat());
    var offset := IVec2(HalveTowardZero(-TileSize.x), 0);
    Add(MulVec2(transform, AsVec2(mapPos)), AsVec2(offset))
  }

  /** The test of `cursor_within_map` on the cell under the cursor (`width as i32` reinterprets the bits). */
  predicate CellWithinMap(w: World, cell: IVec2) {
    cell.x >= 0 && cell.x <= U32AsI32(w.width) && cell.y >= 0 && cell.y <= U32AsI32(w.heigth)
  }

  /** `cursor_within_map`, for a cursor the camera has already converted to world coordinates. */
  predicate CursorWithinMap(w: World, mouseInWorld: Vec2) {
    CellWithinMap(w, WorldToMap(mouseInWorld))
  }

  /** Basis `ihat = (16, 8)`, `jhat = (-16, 8)` and offset `(-16, 0)`. */
  lemma MapToWorldClosedForm(cell: IVec2)
    ensures MapToWorld(cell)
         == Vec2(16.0 * cell.x as real - 16.0 * cell.y as real - 16.0,
                 8.0 * cell.x as real + 8.0 * cell.y as real)
  {
  }

  /** The inverse basis is `[[1/32, 1/16], [-1/32, 1/16]]`. */
  lemma WorldToMapClosedForm(worldPos: Vec2)
    ensures WorldToMap(worldPos)
         == AsIVec2(Vec2(worldPos.x / 32.0 + worldPos.y / 16.0, -worldPos.x / 32.0 + worldPos.y / 16.0))
  {
    var basis := Mat2(IHat(), JHat());
    assert basis == Mat2(Vec2(16.0, 8.0), Vec2(-16.0, 8.0));
    assert Determinant(basis) == 256.0;
    var inv := Inverse(basis);
    assert inv == Mat2(Vec2(1.0 / 32.0, -1.0 / 32.0), Vec2(1.0 / 16.0, 1.0 / 16.0));
    var v := MulVec2(inv, worldPos);
    assert v.x == worldPos.x * (1.0 / 32.0) + worldPos.y * (1.0 / 16.0);
    assert v.y == worldPos.x * (-1.0 / 32.0) + worldPos.y * (1.0 / 16.0);
    assert v == Vec2(worldPos.x / 32.0 + worldPos.y / 16.0, -worldPos.x / 32.0 + worldPos.y / 16.0);
  }

  /** Moving one cell along x moves the world position by `(16, 8)`; along y, by `(-16, 8)`. */
  lemma CellSteps(cell: IVec2)
    ensures MapToWorld(IVec2(cell.x + 1, cell.y)) == Add(MapToWorld(cell), Vec2(16.0, 8.0))
    ensures MapToWorld(IVec2(cell.x, cell.y + 1)) == Add(MapToWorld(cell), Vec2(-16.0, 8.0))
  {
    MapToWorldClosedForm(cell);
    MapToWorldClosedForm(IVec2(cell.x + 1, cell.y));
    MapToWorldClosedForm(IVec2(cell.x, cell.y + 1));
  }

  /** `world_to_map` exactly inverts the linear part `(16x - 16y, 8x + 8y)` of `map_to_world`. */
  lemma LinearPartInverted(cell: IVec2)
    requires IsI32Vec(cell)
    ensures WorldToMap(Vec2(16.0 * cell.x as real - 16.0 * cell.y as real,
                            8.0 * cell.x as real + 8.0 * cell.y as real)) == cell
  {
    var x, y := cell.x as real, cell.y as real;
    WorldToMapClosedForm(Vec2(16.0 * x - 16.0 * y, 8.0 * x + 8.0 * y));
    FloatToI32OfInt(cell.x);
    FloatToI32OfInt(cell.y);
  }

  /**
   * The offset added by `map_to_world` is not removed by `world_to_map`: the
   * round trip lands on `(trunc(x - 1/2), trunc(y + 1/2))`, which moves a cell
   * with positive x one step left and a cell with negative y one step up.
   */
  lemma RoundTrip(cell: IVec2)
    requires IsI32Vec(cell)
    ensures WorldToMap(MapToWorld(cell))
         == AsIVec2(Vec2(cell.x as real - 0.5, cell.y as real + 0.5))
    ensures WorldToMap(MapToWorld(cell))
         == IVec2(if cell.x > 0 then cell.x - 1 else cell.x, if cell.y < 0 then cell.y + 1 else cell.y)
  {
    var x, y := cell.x as real, cell.y as real;
    MapToWorldClosedForm(cell);
    var p := MapToWorld(cell);
    WorldToMapClosedForm(p);
    assert p.x / 32.0 + p.y / 16.0 == x - 0.5;
    assert -p.x / 32.0 + p.y / 16.0 == y + 0.5;
    TruncHalfBelow(cell.x);
    TruncHalfAbove(cell.y);
  }

  lemma TruncHalfBelow(n: int)
    ensures Trunc(n as real - 0.5) == if n > 0 then n - 1 else n
  {
  }

  lemma TruncHalfAbove(n: int)
    ensures Trunc(n as real + 0.5) == if n < 0 then n + 1 else n
  {
  }

  /** The round trip gives back exactly the cells with `x <= 0` and `y >= 0`; on the map itself, only column 0. */
  lemma RoundTripIdentityIff(cell: IVec2)
    requires IsI32Vec(cell)
    ensures WorldToMap(MapToWorld(cell)) == cell <==> cell.x <= 0 && cell.y >= 0
  {
    RoundTrip(cell);
  }

  /** On non-negative cells the round trip is `(max(x - 1, 0), y)`. */
  lemma RoundTripNonNegative(cell: IVec2)
    requires IsI32Vec(cell) && cell.x >= 0 && cell.y >= 0
    ensures WorldToMap(MapToWorld(cell)) == IVec2(if cell.x >= 1 then cell.x - 1 else 0, cell.y)
  {
    RoundTrip(cell);
  }

  /**
   * The point `(16, 8)` to the right of and below the position `map_to_world`
   * returns (the centre of the upper 32x16 diamond of the drawn tile) is
   * mapped back to the cell, for every non-negative cell.
   */
  lemma TileCentrePicksCell(cell: IVec2)
    requires IsI32Vec(cell) && cell.x >= 0 && cell.y >= 0
    ensures WorldToMap(Add(MapToWorld(cell), Vec2(16.0, 8.0))) == cell
  {
    var x, y := cell.x as real, cell.y as real;
    MapToWorldClosedForm(cell);
    var p := Add(MapToWorld(cell), Vec2(16.0, 8.0));
    WorldToMapClosedForm(p);
    assert p.x / 32.0 + p.y / 16.0 == x + 0.5;
    assert -p.x / 32.0 + p.y / 16.0 == y + 0.5;
    TruncHalfAbove(cell.x);
    TruncHalfAbove(cell.y);
  }

  /** With a 32x32 tile, the generic transforms of the isometric module compute the same values. */
  lemma CoincidesWithIsometric(cell: IVec2, worldPos: Vec2)
    ensures MapToWorld(cell) == Isometric.MapToWorld(TileSize, cell)
    ensures WorldToMap(worldPos) == Isometric.WorldToMap(TileSize, worldPos)
  {
    MapToWorldClosedForm(cell);
    Isometric.MapToWorldClosedForm(TileSize, cell);
    WorldToMapClosedForm(worldPos);
    Isometric.WorldToMapClosedForm(TileSize, worldPos);
    assert 2.0 * worldPos.y / 32.0 == worldPos.y / 16.0;
  }

  /**
   * For a map whose sizes fit in `i32`, a cell is accepted iff
   * `0 <= x <= width` and `0 <= y <= heigth`: the upper bounds are inclusive,
   * so the cell `(width, heigth)`, one past the last tile, is accepted.
   */
  lemma CellWithinMapBounds(w: World, cell: IVec2)
    requires w.width <= I32Max && w.heigth <= I32Max
    ensures CellWithinMap(w, cell) <==> 0 <= cell.x <= w.width && 0 <= cell.y <= w.heigth
    ensures CellWithinMap(w, IVec2(w.width, w.heigth))
    ensures !CellWithinMap(w, IVec2(w.width + 1, cell.y)) && !CellWithinMap(w, IVec2(cell.x, w.heigth + 1))
  {
  }

  /**
   * A cursor on the centre of a non-negative cell's tile is within the map iff
   * the cell is: `0 <= x <= width` and `0 <= y <= heigth`.
   */
  lemma CursorOnTileCentre(w: World, cell: IVec2)
    requires w.width <= I32Max && w.heigth <= I32Max
    requires IsI32Vec(cell) && cell.x >= 0 && cell.y >= 0
    ensures CursorWithinMap(w, Add(MapToWorld(cell), Vec2(16.0, 8.0)))
        <==> cell.x <= w.width && cell.y <= w.heigth
  {
    TileCentrePicksCell(cell);
    CellWithinMapBounds(w, cell);
  }

  /** A map wider or taller than `i32::MAX` accepts no cell, since the cast turns its size negative. */
  lemma OversizedMapAcceptsNothing(w: World, cell: IVec2)
    requires w.width > I32Max || w.heigth > I32Max
    ensures !CellWithinMap(w, cell)
  {
  }
}
