/**
 * union: the tiles of a tile set merged into the outlines of the regions they
 * cover. The tiles are burned into an occupancy grid without padding, the grid
 * is turned so that rows run along y, and the shapes the tracer finds in it
 * with value 1 are unprojected and wrapped as features.
 */
module UnionTiles {
  import opened Wrappers
  import opened GeoJson
  import opened Collaborators
  import opened NdArray
  import opened SuperUtils
  import opened BurnTiles

  /** The number of tile columns and tile rows of an inclusive range. */
  function Columns(rg: Range): int { rg.xmax - rg.xmin + 1 }
  function Rows(rg: Range): int { rg.ymax - rg.ymin + 1 }

  /**
   * The affine of union: pixel (0, 0) at nw, one pixel per tile, the y axis
   * pointing down.
   */
  function UnionTransform(nw: Coord, se: Coord, rg: Range): (aff: Affine)
    requires rg.xmin <= rg.xmax && rg.ymin <= rg.ymax
    ensures aff.b == 0.0 && aff.d == 0.0
    ensures Apply(aff, 0.0, 0.0) == nw
    ensures Apply(aff, Columns(rg) as real, Rows(rg) as real) == se
  {
    var w, h := Columns(rg) as real, Rows(rg) as real;
    var aff := Affine((se.x - nw.x) / w, 0.0, nw.x, 0.0, -((nw.y - se.y) / h), nw.y);
    assert (se.x - nw.x) / w * w == se.x - nw.x;
    assert -((nw.y - se.y) / h) * h == se.y - nw.y;
    aff
  }

  /**
   * The affine of union is the transform burn builds for the half-open range
   * one past the inclusive one.
   */
  lemma UnionTransformIsMakeTransform(t: TileMatrixSet, rg: Range, zoom: int)
    requires rg.xmin <= rg.xmax && rg.ymin <= rg.ymax
    ensures var tr := TileRange(rg.xmin, rg.xmax + 1, rg.ymin, rg.ymax + 1);
      MakeTransform(tr, zoom, t) ==
        Ok(UnionTransform(t.xy(t.ul(rg.xmin, rg.ymin, zoom)), t.xy(t.ul(rg.xmax + 1, rg.ymax + 1, zoom)), rg))
  {
    var tr := TileRange(rg.xmin, rg.xmax + 1, rg.ymin, rg.ymax + 1);
    assert (tr.xmax - tr.xmin) as real == Columns(rg) as real;
    assert (tr.ymax - tr.ymin) as real == Rows(rg) as real;
  }

  /**
   * The grid handed to the tracer: Rows(rg) rows of Columns(rg) cells, cell
   * (row r, col c) set exactly when tile (xmin + c, ymin + r) is in the set.
   */
  ghost function Oriented(tiles: seq<seq<int>>, rg: Range): (g: seq<seq<bool>>)
    requires rg.xmin <= rg.xmax && rg.ymin <= rg.ymax
    ensures IsGrid(g, Rows(rg), Columns(rg))
  {
    seq(Rows(rg), r requires 0 <= r < Rows(rg) =>
      seq(Columns(rg), c requires 0 <= c < Columns(rg) => HasTile(tiles, rg.xmin + c, rg.ymin + r)))
  }

  /**
   * The list comprehension of union: for each traced (geometry, value) pair
   * with value 1, in order, a feature with the unprojected geometry and empty
   * properties.
   */
  function WrapShapes(traced: seq<(Geometry, int)>, unproject: Geometry -> Geometry): (r: seq<Feature>)
    ensures |r| <= |traced|
    ensures forall k :: 0 <= k < |r| ==> r[k].properties == Some(map[]) && r[k].geometry.Some?
  {
    if |traced| == 0 then []
    else
      var rest := WrapShapes(traced[1..], unproject);
      if traced[0].1 == 1 then [Feature(Some(unproject(traced[0].0)), Some(map[]))] + rest else rest
  }

  /** The filter keeps order: wrapping two runs of shapes wraps each in turn. */
  lemma {:induction false} WrapShapesAppend(a: seq<(Geometry, int)>, b: seq<(Geometry, int)>, unproject: Geometry -> Geometry)
    ensures WrapShapes(a + b, unproject) == WrapShapes(a, unproject) + WrapShapes(b, unproject)
  {
    if |a| == 0 {
      assert a + b == b;
    } else {
      assert (a + b)[1..] == a[1..] + b;
      WrapShapesAppend(a[1..], b, unproject);
    }
  }

  /** A feature is produced exactly when it wraps the unprojection of a traced shape of value 1. */
  lemma {:induction false} WrapShapesMembers(traced: seq<(Geometry, int)>, unproject: Geometry -> Geometry, f: Feature)
    ensures f in WrapShapes(traced, unproject) <==>
      exists i :: 0 <= i < |traced| && traced[i].1 == 1 && f == Feature(Some(unproject(traced[i].0)), Some(map[]))
  {
    if |traced| > 0 {
      WrapShapesMembers(traced[1..], unproject, f);
      if f in WrapShapes(traced[1..], unproject) {
        var i :| 0 <= i < |traced[1..]| && traced[1..][i].1 == 1 &&
          f == Feature(Some(unproject(traced[1..][i].0)), Some(map[]));
        assert traced[i + 1] == traced[1..][i];
      }
      if exists i :: 0 <= i < |traced| && traced[i].1 == 1 && f == Feature(Some(unproject(traced[i].0)), Some(map[])) {
        var i :| 0 <= i < |traced| && traced[i].1 == 1 && f == Feature(Some(unproject(traced[i].0)), Some(map[]));
        if i > 0 {
          assert traced[1..][i - 1] == traced[i];
        }
      }
    }
  }

  /**
   * What union returns: the failure of tile_parser, get_range or get_zoom, in
   * that order, or the wrapped shapes the tracer finds in the oriented grid.
   */
  ghost function UnionResult(input: TileLines, t: TileMatrixSet, shapes: Tracer): Result<seq<Feature>> {
    var tiles :- TileParser(input);
    var rg :- GetRange(tiles);
    var zoom :- GetZoom(tiles);
    Ok(UnionOf(tiles, rg, zoom, t, shapes))
  }

  /** union fails exactly when parsing, the range or the zoom fails, with that step's error. */
  lemma UnionOutcome(input: TileLines, t: TileMatrixSet, shapes: Tracer)
    ensures UnionResult(input, t, shapes).Ok? <==>
      (TileParser(input).Ok? && GetRange(TileParser(input).value).Ok? && GetZoom(TileParser(input).value).Ok?)
    ensures UnionResult(input, t, shapes).Err? ==>
      UnionResult(input, t, shapes).error ==
        if TileParser(input).Err? then TileParser(input).error
        else if GetRange(TileParser(input).value).Err? then GetRange(TileParser(input).value).error
        else GetZoom(TileParser(input).value).error
  {
  }

  /** The affine of union for a range at zoom: nw is the corner of (xmin, ymin), se that of (xmax + 1, ymax + 1). */
  function UnionAffine(t: TileMatrixSet, rg: Range, zoom: int): (aff: Affine)
    requires rg.xmin <= rg.xmax && rg.ymin <= rg.ymax
    ensures aff.b == 0.0 && aff.d == 0.0
    ensures Apply(aff, 0.0, 0.0) == t.xy(t.ul(rg.xmin, rg.ymin, zoom))
    ensures Apply(aff, Columns(rg) as real, Rows(rg) as real) == t.xy(t.ul(rg.xmax + 1, rg.ymax + 1, zoom))
  {
    var nw := t.xy(t.ul(rg.xmin, rg.ymin, zoom));
    var se := t.xy(t.ul(rg.xmax + 1, rg.ymax + 1, zoom));
    UnionTransform(nw, se, rg)
  }

  /** The tracer run on the grid as uint8, its value-1 shapes wrapped as features. */
  function Traced(grid: seq<seq<bool>>, aff: Affine, shapes: Tracer, unproject: Geometry -> Geometry): seq<Feature> {
    WrapShapes(shapes(AsUint8(grid), aff), unproject)
  }

  /** The features union builds from a tile array whose range and zoom are known. */
  ghost function UnionOf(tiles: seq<seq<int>>, rg: Range, zoom: int, t: TileMatrixSet, shapes: Tracer): seq<Feature>
    requires rg.xmin <= rg.xmax && rg.ymin <= rg.ymax
  {
    Traced(Oriented(tiles, rg), UnionAffine(t, rg, zoom), shapes, t.unproject)
  }

  /**
   * union: parse, range, zoom, then the features traced in the grid.
   */
  method Union(input: TileLines, t: TileMatrixSet, shapes: Tracer) returns (r: Result<seq<Feature>>)
    ensures r == UnionResult(input, t, shapes)
  {
    var tiles :- TileParser(input);
    var rg :- GetRange(tiles);
    var zoom :- GetZoom(tiles);
    var features := TraceTiles(tiles, rg, zoom, t, shapes);
    r := Ok(features);
  }

  /**
   * The rest of union: burnXYZs with pad 0, flipud(rot90(burn)) as uint8, the
   * tracer with the union affine, and the Feature wrapping.
   */
  method TraceTiles(tiles: seq<seq<int>>, rg: Range, zoom: int, t: TileMatrixSet, shapes: Tracer)
    returns (features: seq<Feature>)
    requires GetRange(tiles) == Ok(rg)
    ensures features == UnionOf(tiles, rg, zoom, t, shapes)
  {
    var burn := BurnXYZs(tiles, rg.xmin, rg.xmax, rg.ymin, rg.ymax, 0);
    var aff := UnionAffine(t, rg, zoom);
    var grid := seq(burn.Length0, i requires 0 <= i < burn.Length0 reads burn =>
      seq(burn.Length1, j requires 0 <= j < burn.Length1 reads burn => burn[i, j]));
    forall i, j | 0 <= i < Columns(rg) && 0 <= j < Rows(rg)
      ensures grid[i][j] <==> HasTile(tiles, i + rg.xmin, j + rg.ymin)
    {
      assert grid[i][j] == burn[i, j];
      assert burn[i, j] <==> HasTile(tiles, i + rg.xmin - 0, j + rg.ymin - 0);
    }
    var oriented := FlipUD(Rot90(grid));
    OrientedIsTransposed(tiles, rg, grid);
    features := Traced(oriented, aff, shapes, t.unproject);
  }

  /**
   * flipud(rot90(burn)) of the grid burnXYZs builds (indexed [x - xmin][y - ymin])
   * is the oriented grid (indexed [y - ymin][x - xmin]).
   */
  lemma OrientedIsTransposed(tiles: seq<seq<int>>, rg: Range, grid: seq<seq<bool>>)
    requires rg.xmin <= rg.xmax && rg.ymin <= rg.ymax
    requires IsGrid(grid, Columns(rg), Rows(rg))
    requires forall i, j :: 0 <= i < Columns(rg) && 0 <= j < Rows(rg) ==>
      (grid[i][j] <==> HasTile(tiles, i + rg.xmin, j + rg.ymin))
    ensures Rectangular(grid) && FlipUD(Rot90(grid)) == Oriented(tiles, rg)
  {
    FlipRot90IsTranspose(grid);
    var tr, o := Transpose(grid), Oriented(tiles, rg);
    forall r | 0 <= r < Rows(rg) ensures tr[r] == o[r] {
      forall c | 0 <= c < Columns(rg) ensures tr[r][c] == o[r][c] {
        assert tr[r][c] == grid[c][r];
      }
    }
  }

  /**
   * The oriented grid holds the tile set and nothing else: reading it back as
   * burn does, over the half-open range one past the inclusive one, lists every
   * tile of the set and no other tile.
   */
  lemma GridRoundTrip(tiles: seq<seq<int>>)
    requires GetRange(tiles).Ok? && GetZoom(tiles).Ok?
    ensures var rg, zoom := GetRange(tiles).value, GetZoom(tiles).value;
      var back := TilesOf(Oriented(tiles, rg), TileRange(rg.xmin, rg.xmax + 1, rg.ymin, rg.ymax + 1), zoom);
      (forall k :: 0 <= k < |back| ==> back[k] in tiles) &&
      (forall m :: 0 <= m < |tiles| ==> tiles[m] in back)
  {
    var rg, zoom := GetRange(tiles).value, GetZoom(tiles).value;
    GridReadsBackTiles(tiles, rg, zoom);
    GridReadsBackAll(tiles, rg, zoom);
  }

  lemma GridReadsBackTiles(tiles: seq<seq<int>>, rg: Range, zoom: int)
    requires rg.xmin <= rg.xmax && rg.ymin <= rg.ymax
    requires forall m :: 0 <= m < |tiles| ==> |tiles[m]| == 3 && tiles[m][2] == zoom
    ensures var back := TilesOf(Oriented(tiles, rg), TileRange(rg.xmin, rg.xmax + 1, rg.ymin, rg.ymax + 1), zoom);
      forall k :: 0 <= k < |back| ==> back[k] in tiles
  {
    var tr := TileRange(rg.xmin, rg.xmax + 1, rg.ymin, rg.ymax + 1);
    var g := Oriented(tiles, rg);
    var back := TilesOf(g, tr, zoom);
    TilesOfSound(g, tr, zoom);
    forall k | 0 <= k < |back| ensures back[k] in tiles {
      var row, col := back[k][1] - tr.ymin, back[k][0] - tr.xmin;
      assert g[row][col] == HasTile(tiles, rg.xmin + col, rg.ymin + row);
      var m :| 0 <= m < |tiles| && |tiles[m]| >= 2 && tiles[m][0] == rg.xmin + col && tiles[m][1] == rg.ymin + row;
      assert tiles[m] == [tiles[m][0], tiles[m][1], tiles[m][2]];
      assert back[k] == tiles[m];
    }
  }

  lemma GridReadsBackAll(tiles: seq<seq<int>>, rg: Range, zoom: int)
    requires rg.xmin <= rg.xmax && rg.ymin <= rg.ymax
    requires forall m :: 0 <= m < |tiles| ==> |tiles[m]| == 3 && tiles[m][2] == zoom
    requires forall m :: 0 <= m < |tiles| ==>
      rg.xmin <= tiles[m][0] <= rg.xmax && rg.ymin <= tiles[m][1] <= rg.ymax
    ensures var back := TilesOf(Oriented(tiles, rg), TileRange(rg.xmin, rg.xmax + 1, rg.ymin, rg.ymax + 1), zoom);
      forall m :: 0 <= m < |tiles| ==> tiles[m] in back
  {
    var tr := TileRange(rg.xmin, rg.xmax + 1, rg.ymin, rg.ymax + 1);
    var g := Oriented(tiles, rg);
    var back := TilesOf(g, tr, zoom);
    TilesOfComplete(g, tr, zoom);
    forall m | 0 <= m < |tiles| ensures tiles[m] in back {
      var row, col := tiles[m][1] - rg.ymin, tiles[m][0] - rg.xmin;
      assert HasTile(tiles, rg.xmin + col, rg.ymin + row);
      assert g[row][col];
      var k :| 0 <= k < |back| && back[k] == [col + tr.xmin, row + tr.ymin, zoom];
      assert tiles[m] == [tiles[m][0], tiles[m][1], tiles[m][2]];
    }
  }
}
