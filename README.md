# supermercado tile-grid core, modelled in Dafny

supermercado converts between vector geometry and sets of map tiles `(x, y, z)`
on a tiling scheme. This project models the bookkeeping around its two raster
calls:

- **burn**: a collection of GeoJSON features goes in and the tiles at one zoom
  that they touch come out. The geometries are projected, and their extrema are
  shrunk by an epsilon and clamped to the scheme's bbox. The extrema are turned
  into a half-open tile range and an axis-aligned affine with one pixel per tile.
  The mask that `rasterize` returns is read back into `[x, y, zoom]` rows.
- **union**: a tile set goes in and the outline of the region it covers comes
  out. The tiles are parsed, and their inclusive range and single zoom are taken.
  They are burned into an occupancy grid without padding. The grid is turned with
  `flipud(rot90(·))`, which is a transpose, and handed to `shapes` with the union
  affine. The traced shapes with value 1 are wrapped as features.
- **tile-set utilities**: parsing `z-x-y` tile names, the x/y range and zoom of a
  tile array, the padded occupancy grid, the 8-neighbour offsets, and the
  flattening of multi-part features.

Modules:

- **Wrappers**: the `Option`/`Result` types and the error kinds, one per Python
  exception the code can raise.
- **GeoJson**: coordinates, geometries and features.
- **Collaborators**: the tiling scheme (`t.xy`, `t.tile`, `t.ul`, `t.bbox`, the
  unprojection) as a record of function values, the affine, and the types of
  `rasterize` and `shapes`.
- **NdArray**: the numpy operations used: `np.where` order, `rot90`, `flipud`,
  transpose, `astype(uint8)`, column min and max.
- **SuperUtils**, **BurnTiles**, **UnionTiles**: one module per source file.

Tile indices are `int` and projected coordinates are `real`, so all arithmetic is
exact. `rasterize` is any function that returns a mask of the requested shape.
`shapes` is any function that returns `(geometry, value)` pairs.

Some operations change state in the source, and those are methods:

- `burnXYZs` writes into a fresh array. Its contract states the array's shape
  and every cell directly.
- `filter_features` is a loop that yields.
- The tail of `burn` shifts the columns of `xys` in place.
- `parseString` pops from and appends to its list.

Each method other than `burnXYZs` is proved equal to a function on values, and
the lemmas are stated about that function. `union` is a method only because it
calls `burnXYZs`.

Two behaviours of the code are worth naming:

- `project_geom` returns `None` for a geometry that is not a Polygon,
  LineString or Point. For a geometry without a type member it raises KeyError.
  burn never reaches that call with such a geometry, because `find_extrema`
  runs first. There `_feature_extrema` raises UnboundLocalError, since `x` is
  never bound, or KeyError when there is no type member. The model gives
  UnsupportedGeometry for both.
- `find_extrema` does not reject an empty or inverted box. A lone Point inverts
  it: the epsilon makes min x exceed max x (`PointExtremaInverted`).

## Model

| member | source | states |
|---|---|---|
| SuperUtils.MatchTileName | supermercado/super_utils.py:10 | the compiled pattern's `.match`, split at '-': the three fields it returns are digit strings; MatchTileNameSound and MatchTileNameComplete pin down exactly which |
| SuperUtils.DecimalValue | supermercado/super_utils.py:10 | `int()` of an ASCII digit string, most significant digit first; ToDecimal is its inverse on the naturals (`DecimalValue(ToDecimal(n)) == n`) |
| SuperUtils.ParseString | supermercado/super_utils.py:9-12 | succeeds exactly when the string begins with digits-digits-digits; the result is the three fields with the first moved to the end; any other string gives MalformedTile |
| SuperUtils.ParseTile | supermercado/super_utils.py:9-12 | the pop(0)/append steps give exactly ParseString's result |
| SuperUtils.MatchTileNameSound | supermercado/super_utils.py:10 | what the prefix matcher returns is three non-empty digit runs joined by '-' at the start of the string, not followed by a further digit |
| SuperUtils.MatchTileNameComplete | supermercado/super_utils.py:10 | whenever the string begins with such a name, the matcher returns exactly its three fields (the greedy match) |
| SuperUtils.ParseTileName | supermercado/super_utils.py:9-12 | the name "z-x-y" followed by any text that does not start with a digit parses to [x, y, z] (round trip; trailing text ignored) |
| SuperUtils.ParseStringFails | supermercado/super_utils.py:10-11 | parsing fails if and only if the string does not begin with a tile name |
| SuperUtils.ParseAll | supermercado/super_utils.py:33-35 | one parsed row per name, in order; fails with MalformedTile exactly when some name does not parse |
| SuperUtils.TileParser | supermercado/super_utils.py:31-39 | with parsenames, succeeds exactly when every line matches, giving n rows of 3; decoded JSON rows pass through, and a ragged array gives InvalidShape |
| SuperUtils.GetRange | supermercado/super_utils.py:15-16 | succeeds exactly on a non-empty array with at least two columns; xmin <= every x <= xmax and ymin <= every y <= ymax; each bound is attained by some row; no range is inverted |
| SuperUtils.GetZoom | supermercado/super_utils.py:48-56 | succeeds if and only if the array is non-empty, n by 3, with one zoom; the error is InvalidShape for a bad shape and MixedZoom for differing zooms; the result is the zoom of every row |
| SuperUtils.BurnXYZs | supermercado/super_utils.py:19-28 | the grid has shape (xmax-xmin+2pad+1, ymax-ymin+2pad+1); cell [i, j] is set exactly when some tile has x = i+xmin-pad and y = j+ymin-pad; the pad-wide border is clear |
| SuperUtils.GetIdx | supermercado/super_utils.py:41-45 | the eight offsets, in row-major order from [-1, -1] to [1, 1] |
| SuperUtils.GetIdxIsNeighbourhood | supermercado/super_utils.py:41-45 | [dx, dy] is an offset exactly when both lie in {-1, 0, 1} and not both are 0 |
| SuperUtils.YieldParts | supermercado/super_utils.py:61-85 | the loop body yields exactly the parts of one feature (Flattened's per-feature step) |
| SuperUtils.FilterFeatures | supermercado/super_utils.py:59-85 | the generator's output is the concatenation of the per-feature parts, feature by feature |
| SuperUtils.FlattenedAreSingle | supermercado/super_utils.py:59-85 | every feature yielded has a Point, LineString or Polygon geometry |
| SuperUtils.FlattenedKeepsSingle | supermercado/super_utils.py:62-67 | features that already have a single-part geometry pass through unchanged and in order |
| SuperUtils.FlattenedIdempotent | supermercado/super_utils.py:59-85 | filtering the output again changes nothing |
| BurnTiles.ProjectGeom | supermercado/burntiles.py:9-27 | defined exactly for Point, LineString and Polygon; keeps the type, ring count and ring lengths; the positions are the projections of the original positions, in order |
| BurnTiles.BoxOf | supermercado/burntiles.py:32-39 | fails with EmptyInput exactly on no positions (zip(*[]) cannot be unpacked) |
| BurnTiles.BoxOfTight | supermercado/burntiles.py:39 | min and max of the unzipped positions form the smallest box enclosing them, with a position on each edge |
| BurnTiles.FeatureExtrema | supermercado/burntiles.py:30-39 | succeeds exactly for a Point, LineString or Polygon with positions; such a geometry without positions gives EmptyInput, any other type UnsupportedGeometry |
| BurnTiles.FeatureExtremaTight | supermercado/burntiles.py:30-39 | the extrema are the tight box of the geometry's positions (x, y, x, y for a Point), so minx <= maxx and miny <= maxy |
| BurnTiles.Extrema | supermercado/burntiles.py:44-46 | one box per feature, in order; fails when some feature has no geometry or no extrema |
| BurnTiles.FindExtrema | supermercado/burntiles.py:42-53 | succeeds exactly on a non-empty list of features that all have extrema; the result is the box of all their positions, with Epsilon added to min x and taken from max x, and y clamped to the scheme's bbox |
| BurnTiles.ExtremaFirstError | supermercado/burntiles.py:44-46 | the comprehension raises at the first feature it cannot get past: MissingGeometry for a missing geometry, otherwise that geometry's extrema error |
| BurnTiles.FindExtremaFirstError | supermercado/burntiles.py:42-46 | find_extrema fails with the error of the first feature without extrema |
| BurnTiles.HullIsTight | supermercado/burntiles.py:44-53 | the min of the mins and the max of the maxes of tight boxes is the tight box of all positions |
| BurnTiles.TightUnique | supermercado/burntiles.py:44-53 | a set of positions has only one tight box, so the per-feature route and the all-positions route agree |
| BurnTiles.FindExtremaBounds | supermercado/burntiles.py:48-53 | the y-extent never leaves the scheme's bbox; every position lies within Epsilon of the x-extent |
| BurnTiles.PointExtremaInverted | supermercado/burntiles.py:43-53 | for a single Point feature, the margin makes min x exceed max x |
| BurnTiles.TileExtrema | supermercado/burntiles.py:56-63 | the first tile of the range is the tile under the upper-left corner (minx, maxy); the last tile, one before the exclusive maximum, is the tile under the lower-right corner (maxx, miny) |
| BurnTiles.TileExtremaCovers | supermercado/burntiles.py:56-63 | when t.tile is monotone, the half-open range contains the tile of every point of the box and is non-empty on each axis where the box is not inverted |
| BurnTiles.MakeTransform | supermercado/burntiles.py:66-75 | fails with DegenerateRange exactly on a zero span; otherwise the transform is axis-aligned, sends pixel (0, 0) to the first tile's corner and pixel (width, height) to the corner one past the range |
| BurnTiles.AxisAlignedUnique | supermercado/burntiles.py:66-75 | an axis-aligned transform is fixed by the two corners it maps, so MakeTransform's corner equations determine it |
| BurnTiles.PixelIsTile | supermercado/burntiles.py:66-75 | on a scheme whose tile corners form a regular lattice, pixel (x - xmin, y - ymin) maps to the corner of tile (x, y) |
| BurnTiles.TilesOfSound | supermercado/burntiles.py:96-101 | the tiles read back from a mask number exactly its set cells; each is [x, y, zoom] over a set cell (y - ymin, x - xmin) |
| BurnTiles.TilesOfComplete | supermercado/burntiles.py:96-101 | every set cell (row r, col c) gives the tile [c + xmin, r + ymin, zoom] |
| BurnTiles.TilesOfOrdered | supermercado/burntiles.py:96 | the tiles come in strictly increasing (y, x) order, the row-major order of np.where, so none repeats |
| BurnTiles.TilesOfInRange | supermercado/burntiles.py:84-101 | with a mask of the range's shape, every tile lies inside the half-open range |
| BurnTiles.EmitTiles | supermercado/burntiles.py:96-101 | the where/fliplr/in-place shift/append steps over the xys array produce exactly the tiles read back from the mask |
| BurnTiles.RasterInput | supermercado/burntiles.py:85 | one (projected geometry, 255) pair per feature, in order |
| BurnTiles.BurnOutcome | supermercado/burntiles.py:78-101 | burn succeeds if and only if the features have extrema and the tile range is non-empty on both axes; otherwise the error is that of find_extrema, the ZeroDivisionError of make_transform, or the refusal of a negative shape |
| BurnTiles.BurnTilesInRange | supermercado/burntiles.py:84-101 | rasterize gets a mask of shape (ymax-ymin, xmax-xmin); the output has one [x, y, zoom] row per set cell, each inside the tile range |
| BurnTiles.BurnWith | supermercado/burntiles.py:78-101 | the steps of burn, with the geometries projected by a given scheme, compute BurnResult |
| BurnTiles.BurnAsWritten | supermercado/burntiles.py:78-101 | burn as written: the transform uses t, but the geometries are projected with the default scheme |
| BurnTiles.Burn | supermercado/burntiles.py:78-101 | burn with the geometries projected by t, the same scheme as the transform |
| BurnTiles.RasterInputInGridProjection | supermercado/burntiles.py:84-94 | with t, every geometry reaches rasterize in t's projection |
| BurnTiles.DefaultProjectionDiffers | supermercado/burntiles.py:85 | as written, a position the two schemes project differently reaches rasterize in the wrong projection |
| UnionTiles.UnionTransform | supermercado/uniontiles.py:21-32 | shear 0; pixel (0, 0) is nw and pixel (xmax-xmin+1, ymax-ymin+1) is se |
| UnionTiles.UnionAffine | supermercado/uniontiles.py:21-32 | the affine of union has no shear, sends pixel (0, 0) to the corner of tile (xmin, ymin) and pixel (xmax-xmin+1, ymax-ymin+1) to the corner of tile (xmax+1, ymax+1) |
| UnionTiles.UnionTransformIsMakeTransform | supermercado/uniontiles.py:21-32 | the union affine equals make_transform's affine for the half-open range (xmin, xmax+1, ymin, ymax+1) |
| UnionTiles.OrientedIsTransposed | supermercado/uniontiles.py:19-43 | flipud(rot90) of the pad-0 grid has cell (row r, col c) set exactly when tile (xmin + c, ymin + r) is in the set |
| UnionTiles.GridRoundTrip | supermercado/uniontiles.py:12-19 | reading the oriented grid back as burn does lists only tiles of the set and every tile of the set |
| UnionTiles.WrapShapes | supermercado/uniontiles.py:36-47 | at most one feature per traced shape; each has empty properties and a geometry |
| UnionTiles.WrapShapesMembers | supermercado/uniontiles.py:36-47 | a feature is produced exactly when it wraps the unprojection of a traced shape with value 1 |
| UnionTiles.WrapShapesAppend | supermercado/uniontiles.py:36-47 | the filter keeps shapes' order: wrapping two runs of shapes wraps each in turn |
| UnionTiles.UnionOutcome | supermercado/uniontiles.py:12-16 | union fails exactly when tile_parser, get_range or get_zoom fails, with the first failing step's error |
| UnionTiles.TraceTiles | supermercado/uniontiles.py:19-47 | burnXYZs with pad 0, the reorientation, the affine, the tracer and the wrapping compute UnionOf |
| UnionTiles.Union | supermercado/uniontiles.py:10-49 | the steps of union compute UnionResult |
| NdArray.Where | supermercado/burntiles.py:96 | `np.where` on a boolean grid, giving the set cells row by row; WhereMembers, WhereSorted and WhereCountsTrueCells state its content, order and length |
| NdArray.WhereMembers | supermercado/burntiles.py:96 | np.where lists exactly the set cells of the grid |
| NdArray.WhereSorted | supermercado/burntiles.py:96 | np.where lists the cells in strictly increasing row-major order |
| NdArray.WhereCountsTrueCells | supermercado/burntiles.py:96-101 | np.where lists as many cells as the grid has set |
| NdArray.Rot90 | supermercado/uniontiles.py:43 | `np.rot90`: a quarter turn counter-clockwise, so an h by w grid becomes w by h |
| NdArray.FlipUD | supermercado/uniontiles.py:43 | `np.flipud`: the rows in reverse order, as many as before |
| NdArray.AsUint8 | supermercado/uniontiles.py:43 | `.astype(np.uint8)` on a boolean grid: same shape, each cell 0 or 1, and 1 exactly where the grid is set |
| NdArray.FlipRot90IsTranspose | supermercado/uniontiles.py:43 | flipud(rot90(g)) is the transpose of g |
| NdArray.Min | supermercado/super_utils.py:16 | .min() is an element no larger than any other |
| NdArray.Max | supermercado/super_utils.py:16 | .max() is an element no smaller than any other |

## Findings

| source | as written | input that shows it | evidently intended | confidence | as-written member | corrected member |
|---|---|---|---|---|---|---|
| supermercado/burntiles.py:84-94 | `project_geom(geom["geometry"])` is called without `t=t`, so the geometries are always projected with the default WebMercatorQuad, while the range, the transform and the bbox clamp use `t` | a call with a non-default `t` and a feature with a position that the two schemes project differently, as DefaultProjectionDiffers states | project with `t`, as every other step of burn does | not executed | BurnTiles.BurnAsWritten, BurnTiles.DefaultProjectionDiffers | BurnTiles.Burn, BurnTiles.RasterInputInGridProjection |

## Left out

- scripts/cli.py: argument parsing, file and stdin reading, and JSON output are I/O.
- `edge_finder.findedges` is not part of this model. Only `get_idx` and `burnXYZs`, which it uses, are modelled.
- `Unprojecter`, pyproj and the ellipsoid constants: the unprojection is an opaque field `unproject` of the tiling scheme.
- morecantile's projection math: `t.xy`, `t.tile`, `t.ul` and `t.bbox` are uninterpreted. Only `TileMonotone` and `RegularCorners` are assumed, and only by the lemmas that name them.
- rasterio's `rasterize` scan conversion (all-touched) and `shapes` boundary tracing are uninterpreted functions. `rasterize` is assumed to return a mask of the requested shape.
- `json.loads` in `tile_parser`: the JSON branch takes rows that are already decoded.
- The regex engine: the matcher is an ASCII `digits-digits-digits` prefix check. Python's `\d` and `int()` also accept other Unicode decimal digits; this model does not.
- BurnXYZs: requires every tile inside the range it is given. numpy would wrap a negative index or raise IndexError past the end. `get_range` always supplies such a range.
- EmitTiles: the zoom column is an unbounded `int`. numpy builds it as `uint8` plus `zoom`, which fails for a zoom above 255.
- Positions are 2-D. A GeoJSON position may carry a third element, the altitude. On such a position, `x, y = zip(*…)` and `x, y = geometry["coordinates"]` in `_feature_extrema` raise ValueError. `t.xy(*coords)` in `project_geom` also receives the altitude as an extra argument. The model has no third element.
- BurnTiles.ProjectGeom: for a geometry without a type member, `project_geom` raises KeyError. The model returns `None` there, as it does for the other unhandled types. burn never reaches that call, because `find_extrema` fails on the same feature first.
- Floating-point rounding, the `float()` casts, dtypes and `order="C"`: all arithmetic is exact on `real` and `int`.
- BurnTiles.FeatureExtrema: a feature whose geometry is JSON `null` makes `filter_features` and `_feature_extrema` raise TypeError. The model has no null geometry, only a missing one (`None`), which gives MissingGeometry.
- InvalidZoom: a zoom the scheme does not support is rejected inside morecantile. Here it is part of the uninterpreted `t.tile` and `t.ul`.
- Exceptions are modelled by kind (the `Error` datatype), not by their Python class or message.
