/**
 * The isometric (2:1 axonometric) transform of src/game/isometric_manipulation.rs,
 * parameterised over the tile size `tile = (tw, th)` that the file takes from
 * the crate root.
 */
module Isometric {
  import opened Numeric
  import opened Vectors

  /** Basis vector for one step along the map's x axis: `(0.5, 0.25) * tile`. */
  function IHat(tile: IVec2): Vec2 {
    Mul(Vec2(0.5, 0.25), AsVec2(tile))
  }

  /** Basis vector for one step along the map's y axis: `(-0.5, 0.25) * tile`. */
  function JHat(tile: IVec2): Vec2 {
    Mul(Vec2(-0.5, 0.25), AsVec2(tile))
  }

  function Basis(tile: IVec2): Mat2 {
    Mat2(IHat(tile), JHat(tile))
  }

  /** The half-tile horizontal correction `(-tw / 2, 0)`, in `i32` arithmetic. */
  function Offset(tile: IVec2): IVec2 {
    IVec2(HalveTowardZero(-tile.x), 0)
  }

  /** The linear part of `map_to_world`, without the offset. */
  function Linear(tile: IVec2, cell: IVec2): Vec2 {
    MulVec2(Basis(tile), AsVec2(cell))
  }

  function MapToWorld(tile: IVec2, cell: IVec2): Vec2 {
    Add(Linear(tile, cell), AsVec2(Offset(tile)))
  }

  /** The basis is non-singular exactly when both tile sides are non-zero. */
  lemma BasisDeterminant(tile: IVec2)
    ensures Determinant(Basis(tile)) == (tile.x * tile.y) as real / 4.0
    ensures Determinant(Basis(tile)) != 0.0 <==> tile.x != 0 && tile.y != 0
  {
    var tw, th := tile.x as real, tile.y as real;
    assert Determinant(Basis(tile)) == 0.25 * (tw * th);
    assert (tile.x * tile.y) as real == tw * th;
  }

  function WorldToMap(tile: IVec2, world: Vec2): (cell: IVec2)
    requires tile.x != 0 && tile.y != 0
  {
    BasisDeterminant(tile);
    AsIVec2(MulVec2(Inverse(Basis(tile)), world))
  }

  /** `map_to_world` written out: `((x - y) * tw / 2 - (tw / 2), (x + y) * th / 4)`. */
  lemma MapToWorldClosedForm(tile: IVec2, cell: IVec2)
    ensures MapToWorld(tile, cell)
         == Vec2((cell.x - cell.y) as real * tile.x as real / 2.0 + HalveTowardZero(-tile.x) as real,
                 (cell.x + cell.y) as real * tile.y as real / 4.0)
  {
  }

  /** The entries of the inverse basis: `1/tw`, `-1/tw`, `2/th`, `2/th`. */
  lemma InverseBasisEntries(tile: IVec2)
    requires tile.x != 0 && tile.y != 0
    ensures Determinant(Basis(tile)) != 0.0
    ensures Inverse(Basis(tile))
         == Mat2(Vec2(1.0 / tile.x as real, -1.0 / tile.x as real),
                 Vec2(2.0 / tile.y as real, 2.0 / tile.y as real))
  {
    var tw, th := tile.x as real, tile.y as real;
    BasisDeterminant(tile);
    var det := Determinant(Basis(tile));
    var q := 1.0 / det;
    ReciprocalOfProduct(tw, th, det, q);
  }

  /** For `det = tw * th / 4` and `q = 1 / det`: `(th / 4) q = 1 / tw` and `(tw / 2) q = 2 / th`. */
  lemma ReciprocalOfProduct(tw: real, th: real, det: real, q: real)
    requires tw != 0.0 && th != 0.0
    requires det == 0.25 * (tw * th) && q == 1.0 / det
    ensures 0.25 * th * q == 1.0 / tw
    ensures 0.5 * tw * q == 2.0 / th
  {
    assert det != 0.0;
    assert det * q == 1.0;
    assert tw * (0.25 * th * q) == det * q;
    assert th * (0.5 * tw * q) == 2.0 * (det * q);
  }

  /** `world_to_map` written out: `(wx / tw + 2 wy / th, -wx / tw + 2 wy / th)`, truncated. */
  lemma WorldToMapClosedForm(tile: IVec2, world: Vec2)
    requires tile.x != 0 && tile.y != 0
    ensures WorldToMap(tile, world)
         == AsIVec2(Vec2(world.x / tile.x as real + 2.0 * world.y / tile.y as real,
                         -world.x / tile.x as real + 2.0 * world.y / tile.y as real))
  {
    InverseBasisEntries(tile);
    var tw, th := tile.x as real, tile.y as real;
    var v := MulVec2(Inverse(Basis(tile)), world);
    assert v.x == world.x / tw + 2.0 * world.y / th by {
      assert v.x == world.x * (1.0 / tw) + world.y * (2.0 / th);
    }
    assert v.y == -world.x / tw + 2.0 * world.y / th by {
      assert v.y == world.x * (-1.0 / tw) + world.y * (2.0 / th);
    }
  }

  /** `world_to_map` exactly inverts the linear part of `map_to_world` on every `i32` cell. */
  lemma LinearRoundTrip(tile: IVec2, cell: IVec2)
    requires tile.x != 0 && tile.y != 0
    requires IsI32Vec(cell)
    ensures WorldToMap(tile, Linear(tile, cell)) == cell
  {
    BasisDeterminant(tile);
    InverseUndoes(Basis(tile), AsVec2(cell));
    FloatToI32OfInt(cell.x);
    FloatToI32OfInt(cell.y);
  }
}
