/**
 * The collaborators the core calls but does not implement: the tile matrix set
 * (tiling scheme), the affine transform of an output grid, and the two raster
 * library calls. Each is a function value, constrained only by what the core
 * relies on.
 */
module Collaborators {
  import opened GeoJson

  /** A tile index as returned by the tiling scheme. */
  datatype TileIndex = TileIndex(x: int, y: int, z: int)

  /** A bounding box (left, bottom, right, top). */
  datatype BBox = BBox(minx: real, miny: real, maxx: real, maxy: real)

  /** The tile matrix set of the tiling scheme, with the inverse projection of its Unprojecter. */
  datatype TileMatrixSet = TileMatrixSet(
    xy: Coord -> Coord,              // geodetic position to projected position
    tile: (Coord, int) -> TileIndex, // tile containing a geodetic position at a zoom
    ul: (int, int, int) -> Coord,    // geodetic upper-left corner of tile (x, y, zoom)
    bbox: BBox,                      // geodetic bounds of the grid
    unproject: Geometry -> Geometry  // projected geometry back to geodetic coordinates
  )

  /**
   * The tile index grows eastward in x and southward in y: a position further
   * east is never in a column further west, and a position further north is
   * never in a row further south.
   */
  ghost predicate TileMonotone(t: TileMatrixSet, zoom: int) {
    (forall a: Coord, b: Coord :: a.x <= b.x ==> t.tile(a, zoom).x <= t.tile(b, zoom).x) &&
    (forall a: Coord, b: Coord :: a.y <= b.y ==> t.tile(b, zoom).y <= t.tile(a, zoom).y)
  }

  /** An affine transform (a, b, c, d, e, f): X = a*col + b*row + c, Y = d*col + e*row + f. */
  datatype Affine = Affine(a: real, b: real, c: real, d: real, e: real, f: real)

  function Apply(aff: Affine, col: real, row: real): Coord {
    Coord(aff.a * col + aff.b * row + aff.c, aff.d * col + aff.e * row + aff.f)
  }

  /** rasterio.features.rasterize: (shapes with burn values, rows, columns, transform) to a mask. */
  type Rasterizer = (seq<(Geometry, int)>, int, int, Affine) -> seq<seq<bool>>

  /** rasterio.features.shapes: (pixel grid, transform) to traced (geometry, pixel value) pairs. */
  type Tracer = (seq<seq<int>>, Affine) -> seq<(Geometry, int)>

  /** A grid of exactly rows x cols cells. */
  predicate IsGrid<T>(g: seq<seq<T>>, rows: int, cols: int) {
    |g| == rows && forall r :: 0 <= r < |g| ==> |g[r]| == cols
  }

  /** The only thing the core relies on about rasterize: it returns a mask of the requested shape. */
  ghost predicate ReturnsRequestedShape(rasterize: Rasterizer) {
    forall shapes, rows, cols, aff :: rows >= 0 && cols >= 0 ==>
      IsGrid(rasterize(shapes, rows, cols, aff), rows, cols)
  }
}
