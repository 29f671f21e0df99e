/**
 * The burn pipeline: projection of geometries, their extrema, the half-open
 * tile range covering them, the affine transform of the output grid, and the
 * conversion of the rasterized mask back into tiles.
 */
module BurnTiles {
  import opened Wrappers
  import opened GeoJson
  import opened Collaborators
  import opened NdArray

  // ---------------------------------------------------------------- projection

  function Projected(t: TileMatrixSet, cs: seq<Coord>): (r: seq<Coord>)
    ensures |r| == |cs| && forall i :: 0 <= i < |cs| ==> r[i] == t.xy(cs[i])
  {
    seq(|cs|, i requires 0 <= i < |cs| => t.xy(cs[i]))
  }

  /** g and h have the same type, the same number of rings and the same ring lengths. */
  predicate SameShape(g: Geometry, h: Geometry) {
    match g
    case Point(_) => h.Point?
    case LineString(cs) => h.LineString? && |h.coords| == |cs|
    case Polygon(rings) => h.Polygon? && |h.rings| == |rings| &&
      forall i :: 0 <= i < |rings| ==> |h.rings[i]| == |rings[i]|
    case _ => false
  }

  lemma {:induction false} ConcatProjected(t: TileMatrixSet, rings: seq<seq<Coord>>)
    ensures Concat(seq(|rings|, i requires 0 <= i < |rings| => Projected(t, rings[i]))) == Projected(t, Concat(rings))
  {
    var pr := seq(|rings|, i requires 0 <= i < |rings| => Projected(t, rings[i]));
    if |rings| > 0 {
      ConcatProjected(t, rings[1..]);
      assert pr[1..] == seq(|rings[1..]|, i requires 0 <= i < |rings[1..]| => Projected(t, rings[1..][i]));
      assert Concat(pr) == pr[0] + Concat(pr[1..]);
      assert Concat(rings) == rings[0] + Concat(rings[1..]);
    }
  }

  /**
   * project_geom: the same geometry with every position replaced by its
   * projection; None (Python's implicit return) for any other geometry type.
   */
  function ProjectGeom(t: TileMatrixSet, g: Geometry): (r: Option<Geometry>)
    ensures r.Some? <==> IsSingle(g)
    ensures r.Some? ==> SameShape(g, r.value)
    ensures r.Some? ==> Vertices(r.value) == Projected(t, Vertices(g))
  {
    match g
    case Polygon(rings) =>
      var pr := seq(|rings|, i requires 0 <= i < |rings| => Projected(t, rings[i]));
      ConcatProjected(t, rings);
      Some(Polygon(pr))
    case LineString(cs) => Some(LineString(Projected(t, cs)))
    case Point(c) => Some(Point(t.xy(c)))
    case _ => None
  }

  // ---------------------------------------------------------------- extrema

  function RealMin(s: seq<real>): (m: real)
    requires |s| > 0
    ensures m in s && forall i :: 0 <= i < |s| ==> m <= s[i]
  {
    if |s| == 1 then s[0]
    else
      var rest := RealMin(s[1..]);
      assert forall i :: 1 <= i < |s| ==> s[i] == s[1..][i - 1];
      if s[0] <= rest then s[0] else rest
  }

  function RealMax(s: seq<real>): (m: real)
    requires |s| > 0
    ensures m in s && forall i :: 0 <= i < |s| ==> s[i] <= m
  {
    if |s| == 1 then s[0]
    else
      var rest := RealMax(s[1..]);
      assert forall i :: 1 <= i < |s| ==> s[i] == s[1..][i - 1];
      if s[0] >= rest then s[0] else rest
  }

  /** Python's two-argument max and min. */
  function Max2(a: real, b: real): real { if b > a then b else a }
  function Min2(a: real, b: real): real { if b < a then b else a }

  /** Every position of vs lies in b. */
  ghost predicate Encloses(vs: seq<Coord>, b: BBox) {
    forall v :: v in vs ==> b.minx <= v.x <= b.maxx && b.miny <= v.y <= b.maxy
  }

  /** b is the smallest box enclosing vs: it encloses vs and some position lies on each edge. */
  ghost predicate Tight(vs: seq<Coord>, b: BBox) {
    Encloses(vs, b) &&
    (exists v :: v in vs && v.x == b.minx) && (exists v :: v in vs && v.x == b.maxx) &&
    (exists v :: v in vs && v.y == b.miny) && (exists v :: v in vs && v.y == b.maxy)
  }

  /** A set of positions has only one tight box. */
  lemma TightUnique(vs: seq<Coord>, b1: BBox, b2: BBox)
    requires Tight(vs, b1) && Tight(vs, b2)
    ensures b1 == b2
  {
    var v1 :| v1 in vs && v1.x == b1.minx;
    var v2 :| v2 in vs && v2.x == b2.minx;
    var v3 :| v3 in vs && v3.x == b1.maxx;
    var v4 :| v4 in vs && v4.x == b2.maxx;
    var v5 :| v5 in vs && v5.y == b1.miny;
    var v6 :| v6 in vs && v6.y == b2.miny;
    var v7 :| v7 in vs && v7.y == b1.maxy;
    var v8 :| v8 in vs && v8.y == b2.maxy;
  }

  function Xs(vs: seq<Coord>): (r: seq<real>)
    ensures |r| == |vs| && forall i :: 0 <= i < |vs| ==> r[i] == vs[i].x
  {
    seq(|vs|, i requires 0 <= i < |vs| => vs[i].x)
  }

  function Ys(vs: seq<Coord>): (r: seq<real>)
    ensures |r| == |vs| && forall i :: 0 <= i < |vs| ==> r[i] == vs[i].y
  {
    seq(|vs|, i requires 0 <= i < |vs| => vs[i].y)
  }

  /** min(x), min(y), max(x), max(y) over the unzipped positions; zip(*[]) has nothing to unpack. */
  function BoxOf(vs: seq<Coord>): (r: Result<BBox>)
    ensures r.Ok? <==> |vs| > 0
    ensures r.Err? ==> r.error == EmptyInput
  {
    if |vs| == 0 then Err(EmptyInput)
    else Ok(BBox(RealMin(Xs(vs)), RealMin(Ys(vs)), RealMax(Xs(vs)), RealMax(Ys(vs))))
  }

  /** The box of a non-empty run of positions is its tight box. */
  lemma BoxOfTight(vs: seq<Coord>)
    requires |vs| > 0
    ensures Tight(vs, BoxOf(vs).value)
  {
    var b := BoxOf(vs).value;
    assert exists v :: v in vs && v.x == b.minx by {
      var i :| 0 <= i < |vs| && Xs(vs)[i] == b.minx;
      assert vs[i] in vs;
    }
    assert exists v :: v in vs && v.x == b.maxx by {
      var i :| 0 <= i < |vs| && Xs(vs)[i] == b.maxx;
      assert vs[i] in vs;
    }
    assert exists v :: v in vs && v.y == b.miny by {
      var i :| 0 <= i < |vs| && Ys(vs)[i] == b.miny;
      assert vs[i] in vs;
    }
    assert exists v :: v in vs && v.y == b.maxy by {
      var i :| 0 <= i < |vs| && Ys(vs)[i] == b.maxy;
      assert vs[i] in vs;
    }
    forall v | v in vs ensures b.minx <= v.x <= b.maxx && b.miny <= v.y <= b.maxy {
      var i :| 0 <= i < |vs| && vs[i] == v;
      assert Xs(vs)[i] == v.x && Ys(vs)[i] == v.y;
    }
  }

  /**
   * _feature_extrema: (minx, miny, maxx, maxy) of a geometry's positions, (x, y, x, y)
   * for a Point; any other geometry type reaches `return` with x unbound.
   */
  function FeatureExtrema(g: Geometry): (r: Result<BBox>)
    ensures r.Ok? <==> IsSingle(g) && |Vertices(g)| > 0
    ensures r.Err? ==> r.error == if IsSingle(g) then EmptyInput else UnsupportedGeometry
  {
    match g
    case Polygon(rings) => BoxOf(Concat(rings))
    case LineString(cs) => BoxOf(cs)
    case Point(c) => Ok(BBox(c.x, c.y, c.x, c.y))
    case _ => Err(UnsupportedGeometry)
  }

  /** The extrema of a geometry are the tight box of its positions, so never inverted. */
  lemma FeatureExtremaTight(g: Geometry)
    requires FeatureExtrema(g).Ok?
    ensures Tight(Vertices(g), FeatureExtrema(g).value)
    ensures FeatureExtrema(g).value.minx <= FeatureExtrema(g).value.maxx
    ensures FeatureExtrema(g).value.miny <= FeatureExtrema(g).value.maxy
  {
    match g
    case Polygon(rings) => BoxOfTight(Concat(rings));
    case LineString(cs) => BoxOfTight(cs);
    case Point(c) => assert c in Vertices(g);
  }

  /** f has a Point, LineString or Polygon geometry whose extrema are b. */
  predicate BoxedBy(f: Feature, b: BBox) {
    HasSingleGeometry(f) && FeatureExtrema(f.geometry.value) == Ok(b)
  }

  /** The list comprehension of find_extrema: one box per feature, the first failure raised. */
  function Extrema(fs: seq<Feature>): (r: Result<seq<BBox>>)
    ensures r.Ok? <==> forall i :: 0 <= i < |fs| ==>
      fs[i].geometry.Some? && FeatureExtrema(fs[i].geometry.value).Ok?
    ensures r.Ok? ==> |r.value| == |fs| && forall i :: 0 <= i < |fs| ==> BoxedBy(fs[i], r.value[i])
  {
    if |fs| == 0 then Ok([])
    else if fs[0].geometry.None? then Err(MissingGeometry)
    else
      var b :- FeatureExtrema(fs[0].geometry.value);
      var rest :- Extrema(fs[1..]);
      PairwiseCons(BoxedBy, fs, b, rest);
      Ok([b] + rest)
  }

  /** The comprehension of find_extrema gets past feature f. */
  predicate FeatureOk(f: Feature) {
    f.geometry.Some? && FeatureExtrema(f.geometry.value).Ok?
  }

  /** What the comprehension raises at a feature it cannot get past. */
  function FeatureError(f: Feature): Error
    requires !FeatureOk(f)
  {
    if f.geometry.None? then MissingGeometry else FeatureExtrema(f.geometry.value).error
  }

  /** The first feature the comprehension cannot get past decides the error. */
  lemma {:induction false} ExtremaFirstError(fs: seq<Feature>, i: int)
    requires 0 <= i < |fs| && !FeatureOk(fs[i])
    requires forall j :: 0 <= j < i ==> FeatureOk(fs[j])
    ensures Extrema(fs) == Err(FeatureError(fs[i]))
    decreases i
  {
    if i > 0 {
      assert forall j :: 0 <= j < i - 1 ==> fs[1..][j] == fs[j + 1];
      ExtremaFirstError(fs[1..], i - 1);
    }
  }

  /** All positions of all features, in order. */
  ghost function AllVertices(fs: seq<Feature>): seq<Coord>
    requires forall i :: 0 <= i < |fs| ==> fs[i].geometry.Some?
  {
    Concat(seq(|fs|, i requires 0 <= i < |fs| => Vertices(fs[i].geometry.value)))
  }

  function MinXs(bs: seq<BBox>): seq<real> { seq(|bs|, i requires 0 <= i < |bs| => bs[i].minx) }
  function MinYs(bs: seq<BBox>): seq<real> { seq(|bs|, i requires 0 <= i < |bs| => bs[i].miny) }
  function MaxXs(bs: seq<BBox>): seq<real> { seq(|bs|, i requires 0 <= i < |bs| => bs[i].maxx) }
  function MaxYs(bs: seq<BBox>): seq<real> { seq(|bs|, i requires 0 <= i < |bs| => bs[i].maxy) }

  /** The box of the per-feature boxes, as min(min_x), min(min_y), max(max_x), max(max_y). */
  function Hull(bs: seq<BBox>): BBox
    requires |bs| > 0
  {
    BBox(RealMin(MinXs(bs)), RealMin(MinYs(bs)), RealMax(MaxXs(bs)), RealMax(MaxYs(bs)))
  }

  /** The box of tight boxes is the tight box of all their positions. */
  lemma HullIsTight(vss: seq<seq<Coord>>, bs: seq<BBox>)
    requires |bs| == |vss| > 0
    requires forall i :: 0 <= i < |bs| ==> Tight(vss[i], bs[i])
    ensures Tight(Concat(vss), Hull(bs))
  {
    HullEncloses(vss, bs);
    HullXEdges(vss, bs);
    HullYEdges(vss, bs);
  }

  lemma HullXEdges(vss: seq<seq<Coord>>, bs: seq<BBox>)
    requires |bs| == |vss| > 0
    requires forall i :: 0 <= i < |bs| ==> Tight(vss[i], bs[i])
    ensures exists v :: v in Concat(vss) && v.x == Hull(bs).minx
    ensures exists v :: v in Concat(vss) && v.x == Hull(bs).maxx
  {
    var h := Hull(bs);
    var i1 :| 0 <= i1 < |bs| && MinXs(bs)[i1] == h.minx;
    HullEdge(vss, bs, i1);
    assert bs[i1].minx == h.minx;
    var i2 :| 0 <= i2 < |bs| && MaxXs(bs)[i2] == h.maxx;
    HullEdge(vss, bs, i2);
    assert bs[i2].maxx == h.maxx;
  }

  lemma HullYEdges(vss: seq<seq<Coord>>, bs: seq<BBox>)
    requires |bs| == |vss| > 0
    requires forall i :: 0 <= i < |bs| ==> Tight(vss[i], bs[i])
    ensures exists v :: v in Concat(vss) && v.y == Hull(bs).miny
    ensures exists v :: v in Concat(vss) && v.y == Hull(bs).maxy
  {
    var h := Hull(bs);
    var i3 :| 0 <= i3 < |bs| && MinYs(bs)[i3] == h.miny;
    HullEdge(vss, bs, i3);
    assert bs[i3].miny == h.miny;
    var i4 :| 0 <= i4 < |bs| && MaxYs(bs)[i4] == h.maxy;
    HullEdge(vss, bs, i4);
    assert bs[i4].maxy == h.maxy;
  }

  lemma HullEncloses(vss: seq<seq<Coord>>, bs: seq<BBox>)
    requires |bs| == |vss| > 0
    requires forall i :: 0 <= i < |bs| ==> Encloses(vss[i], bs[i])
    ensures Encloses(Concat(vss), Hull(bs))
  {
    var h, all := Hull(bs), Concat(vss);
    forall v | v in all ensures h.minx <= v.x <= h.maxx && h.miny <= v.y <= h.maxy {
      InConcat(vss, v);
      var i :| 0 <= i < |vss| && v in vss[i];
      assert MinXs(bs)[i] == bs[i].minx && MaxXs(bs)[i] == bs[i].maxx;
      assert MinYs(bs)[i] == bs[i].miny && MaxYs(bs)[i] == bs[i].maxy;
    }
  }

  /** The positions on the edges of the i-th tight box are positions of the concatenation. */
  lemma HullEdge(vss: seq<seq<Coord>>, bs: seq<BBox>, i: int)
    requires |bs| == |vss| && 0 <= i < |bs| && Tight(vss[i], bs[i])
    ensures exists v :: v in Concat(vss) && v.x == bs[i].minx
    ensures exists v :: v in Concat(vss) && v.x == bs[i].maxx
    ensures exists v :: v in Concat(vss) && v.y == bs[i].miny
    ensures exists v :: v in Concat(vss) && v.y == bs[i].maxy
  {
    var v1 :| v1 in vss[i] && v1.x == bs[i].minx;
    InConcat(vss, v1);
    var v2 :| v2 in vss[i] && v2.x == bs[i].maxx;
    InConcat(vss, v2);
    var v3 :| v3 in vss[i] && v3.y == bs[i].miny;
    InConcat(vss, v3);
    var v4 :| v4 in vss[i] && v4.y == bs[i].maxy;
    InConcat(vss, v4);
  }

  /** The inward margin of find_extrema, 1.0e-10. */
  const Epsilon: real := 0.0000000001

  /** The margin of find_extrema applied to a box: Epsilon inward, y clamped to the scheme's bbox. */
  function Shrink(h: BBox, t: TileMatrixSet): BBox {
    BBox(h.minx + Epsilon, Max2(h.miny + Epsilon, t.bbox.miny),
         h.maxx - Epsilon, Min2(h.maxy - Epsilon, t.bbox.maxy))
  }

  /**
   * find_extrema: the box of all positions of all features, shrunk by Epsilon on
   * every side, its y-extent further clamped to the tiling scheme's bbox.
   */
  function FindExtrema(features: seq<Feature>, t: TileMatrixSet): (r: Result<BBox>)
    ensures r.Ok? <==> (|features| > 0 && forall i :: 0 <= i < |features| ==>
      features[i].geometry.Some? && FeatureExtrema(features[i].geometry.value).Ok?)
    ensures |features| == 0 ==> r == Err(EmptyInput)
    ensures r.Ok? ==> forall i :: 0 <= i < |features| ==> HasSingleGeometry(features[i])
    ensures r.Ok? ==> (BoxOf(AllVertices(features)).Ok? &&
      r.value == Shrink(BoxOf(AllVertices(features)).value, t))
  {
    var boxes :- Extrema(features);
    if |boxes| == 0 then Err(EmptyInput)
    else
      var vss := seq(|features|, i requires 0 <= i < |features| => Vertices(features[i].geometry.value));
      forall i | 0 <= i < |boxes| ensures Tight(vss[i], boxes[i]) {
        FeatureExtremaTight(features[i].geometry.value);
      }
      HullIsTight(vss, boxes);
      HullIsBoxOf(vss, boxes);
      Ok(Shrink(Hull(boxes), t))
  }

  /** find_extrema raises the error of the first feature without extrema. */
  lemma FindExtremaFirstError(features: seq<Feature>, t: TileMatrixSet, i: int)
    requires 0 <= i < |features| && !FeatureOk(features[i])
    requires forall j :: 0 <= j < i ==> FeatureOk(features[j])
    ensures FindExtrema(features, t) == Err(FeatureError(features[i]))
  {
    ExtremaFirstError(features, i);
  }

  /** The hull of the per-feature boxes is the box computed over all positions at once. */
  lemma HullIsBoxOf(vss: seq<seq<Coord>>, bs: seq<BBox>)
    requires |bs| == |vss| > 0
    requires Tight(Concat(vss), Hull(bs))
    ensures BoxOf(Concat(vss)) == Ok(Hull(bs))
  {
    var v :| v in Concat(vss) && v.x == Hull(bs).minx;
    BoxOfTight(Concat(vss));
    TightUnique(Concat(vss), BoxOf(Concat(vss)).value, Hull(bs));
  }

  /** Every position lies within Epsilon of the x-extent; the y-extent never leaves the scheme's bbox. */
  lemma FindExtremaBounds(features: seq<Feature>, t: TileMatrixSet)
    requires FindExtrema(features, t).Ok?
    ensures var b := FindExtrema(features, t).value;
      b.miny >= t.bbox.miny && b.maxy <= t.bbox.maxy &&
      forall v :: v in AllVertices(features) ==> b.minx - Epsilon <= v.x <= b.maxx + Epsilon
  {
    BoxOfTight(AllVertices(features));
    assert Encloses(AllVertices(features), BoxOf(AllVertices(features)).value);
  }

  /** For a lone Point the margin turns the box inside out: its min x exceeds its max x. */
  lemma PointExtremaInverted(c: Coord, p: Option<Properties>, t: TileMatrixSet)
    ensures FindExtrema([Feature(Some(Point(c)), p)], t).Ok?
    ensures FindExtrema([Feature(Some(Point(c)), p)], t).value.minx > FindExtrema([Feature(Some(Point(c)), p)], t).value.maxx
  {
    var fs := [Feature(Some(Point(c)), p)];
    assert AllVertices(fs) == [c] by {
      assert Concat(seq(1, i requires 0 <= i < 1 => Vertices(fs[i].geometry.value))) == [c] + Concat([]);
    }
    assert BoxOf([c]) == Ok(BBox(c.x, c.y, c.x, c.y));
  }

  // ---------------------------------------------------------------- tile range

  /** A half-open tile range: xmin <= x < xmax, ymin <= y < ymax. */
  datatype TileRange = TileRange(xmin: int, xmax: int, ymin: int, ymax: int)

  /**
   * tile_extrema: from the tile under the upper-left corner to one past the tile
   * under the lower-right corner.
   */
  function TileExtrema(bounds: BBox, zoom: int, t: TileMatrixSet): (r: TileRange)
    ensures t.tile(Coord(bounds.minx, bounds.maxy), zoom).x == r.xmin && t.tile(Coord(bounds.minx, bounds.maxy), zoom).y == r.ymin
    ensures t.tile(Coord(bounds.maxx, bounds.miny), zoom).x == r.xmax - 1 && t.tile(Coord(bounds.maxx, bounds.miny), zoom).y == r.ymax - 1
  {
    var minimumTile := t.tile(Coord(bounds.minx, bounds.maxy), zoom);
    var maximumTile := t.tile(Coord(bounds.maxx, bounds.miny), zoom);
    TileRange(minimumTile.x, maximumTile.x + 1, minimumTile.y, maximumTile.y + 1)
  }

  /**
   * When tile is monotone (x grows east, y grows south), the range holds the
   * tile of every point of the box, and is non-empty along each axis the box
   * is not inverted on.
   */
  lemma TileExtremaCovers(bounds: BBox, zoom: int, t: TileMatrixSet)
    requires TileMonotone(t, zoom)
    ensures forall p: Coord ::
      bounds.minx <= p.x <= bounds.maxx && bounds.miny <= p.y <= bounds.maxy ==>
      TileExtrema(bounds, zoom, t).xmin <= t.tile(p, zoom).x < TileExtrema(bounds, zoom, t).xmax &&
      TileExtrema(bounds, zoom, t).ymin <= t.tile(p, zoom).y < TileExtrema(bounds, zoom, t).ymax
    ensures bounds.minx <= bounds.maxx ==> TileExtrema(bounds, zoom, t).xmin < TileExtrema(bounds, zoom, t).xmax
    ensures bounds.miny <= bounds.maxy ==> TileExtrema(bounds, zoom, t).ymin < TileExtrema(bounds, zoom, t).ymax
  {
    var ul, lr := Coord(bounds.minx, bounds.maxy), Coord(bounds.maxx, bounds.miny);
    forall p: Coord | bounds.minx <= p.x <= bounds.maxx && bounds.miny <= p.y <= bounds.maxy
      ensures t.tile(ul, zoom).x <= t.tile(p, zoom).x <= t.tile(lr, zoom).x
      ensures t.tile(ul, zoom).y <= t.tile(p, zoom).y <= t.tile(lr, zoom).y
    {
    }
    if bounds.minx <= bounds.maxx && bounds.miny <= bounds.maxy {
      assert t.tile(ul, zoom).x <= t.tile(lr, zoom).x;
    }
  }

  // ---------------------------------------------------------------- grid transform

  /**
   * make_transform: the axis-aligned affine whose pixel (0, 0) is the upper-left
   * corner of the first tile and whose pixel (width, height) is the upper-left
   * corner of the tile one past the range; float division by a zero span raises.
   */
  function MakeTransform(tr: TileRange, zoom: int, t: TileMatrixSet): (r: Result<Affine>)
    ensures r.Ok? <==> tr.xmax != tr.xmin && tr.ymax != tr.ymin
    ensures r.Err? ==> r.error == DegenerateRange
    ensures r.Ok? ==> r.value.b == 0.0 && r.value.d == 0.0
    ensures r.Ok? ==> Apply(r.value, 0.0, 0.0) == t.xy(t.ul(tr.xmin, tr.ymin, zoom))
    ensures r.Ok? ==>
      Apply(r.value, (tr.xmax - tr.xmin) as real, (tr.ymax - tr.ymin) as real) == t.xy(t.ul(tr.xmax, tr.ymax, zoom))
  {
    var ul := t.xy(t.ul(tr.xmin, tr.ymin, zoom));
    var lr := t.xy(t.ul(tr.xmax, tr.ymax, zoom));
    if tr.xmax == tr.xmin || tr.ymax == tr.ymin then Err(DegenerateRange)
    else
      var w, h := (tr.xmax - tr.xmin) as real, (tr.ymax - tr.ymin) as real;
      var xcell := (lr.x - ul.x) / w;
      var ycell := (ul.y - lr.y) / h;
      assert xcell * w == lr.x - ul.x;
      assert -ycell * h == lr.y - ul.y;
      Ok(Affine(xcell, 0.0, ul.x, 0.0, -ycell, ul.y))
  }

  /** An axis-aligned transform is determined by the two corners it maps. */
  lemma AxisAlignedUnique(aff: Affine, other: Affine, w: real, h: real)
    requires w != 0.0 && h != 0.0
    requires aff.b == 0.0 && aff.d == 0.0 && other.b == 0.0 && other.d == 0.0
    requires Apply(aff, 0.0, 0.0) == Apply(other, 0.0, 0.0)
    requires Apply(aff, w, h) == Apply(other, w, h)
    ensures aff == other
  {
    assert aff.c == other.c && aff.f == other.f;
    assert aff.a * w == other.a * w;
    assert (aff.a - other.a) * w == 0.0;
    assert aff.e * h == other.e * h;
    assert (aff.e - other.e) * h == 0.0;
  }

  /** The tiling scheme places tile corners on a regular lattice of the projected plane. */
  ghost predicate RegularCorners(t: TileMatrixSet, zoom: int, x0: real, y0: real, dx: real, dy: real) {
    forall x: int, y: int :: t.xy(t.ul(x, y, zoom)) == Coord(x0 + dx * x as real, y0 + dy * y as real)
  }

  /** On such a scheme one pixel of the transform is exactly one tile. */
  lemma PixelIsTile(tr: TileRange, zoom: int, t: TileMatrixSet, x0: real, y0: real, dx: real, dy: real, x: int, y: int)
    requires RegularCorners(t, zoom, x0, y0, dx, dy)
    requires MakeTransform(tr, zoom, t).Ok?
    ensures Apply(MakeTransform(tr, zoom, t).value, (x - tr.xmin) as real, (y - tr.ymin) as real)
      == t.xy(t.ul(x, y, zoom))
  {
    var aff := MakeTransform(tr, zoom, t).value;
    var w, h := (tr.xmax - tr.xmin) as real, (tr.ymax - tr.ymin) as real;
    assert t.xy(t.ul(tr.xmin, tr.ymin, zoom)) == Coord(x0 + dx * tr.xmin as real, y0 + dy * tr.ymin as real);
    assert t.xy(t.ul(tr.xmax, tr.ymax, zoom)) == Coord(x0 + dx * tr.xmax as real, y0 + dy * tr.ymax as real);
    assert t.xy(t.ul(x, y, zoom)) == Coord(x0 + dx * x as real, y0 + dy * y as real);
    assert aff.a * w == dx * w;
    assert (aff.a - dx) * w == 0.0;
    assert aff.e * h == dy * h;
    assert (aff.e - dy) * h == 0.0;
    assert aff.a * (x - tr.xmin) as real == dx * x as real - dx * tr.xmin as real;
    assert aff.e * (y - tr.ymin) as real == dy * y as real - dy * tr.ymin as real;
  }

  // ---------------------------------------------------------------- mask to tiles

  /**
   * The tiles of a mask: each set cell (row r, col c), in np.where's row-major
   * order, becomes [c + xmin, r + ymin, zoom].
   */
  function TilesOf(mask: seq<seq<bool>>, tr: TileRange, zoom: int): seq<seq<int>> {
    var cells := Where(mask);
    seq(|cells|, k requires 0 <= k < |cells| => [cells[k].col + tr.xmin, cells[k].row + tr.ymin, zoom])
  }

  /** One tile per set cell, each of the form [x, y, zoom] over a set cell of the mask. */
  lemma TilesOfSound(mask: seq<seq<bool>>, tr: TileRange, zoom: int)
    ensures |TilesOf(mask, tr, zoom)| == |TrueCells(mask)|
    ensures forall k :: 0 <= k < |TilesOf(mask, tr, zoom)| ==>
      var tile := TilesOf(mask, tr, zoom)[k];
      var row, col := tile[1] - tr.ymin, tile[0] - tr.xmin;
      |tile| == 3 && tile[2] == zoom &&
      0 <= row < |mask| && 0 <= col < |mask[row]| && mask[row][col]
  {
    var r, cells := TilesOf(mask, tr, zoom), Where(mask);
    WhereMembers(mask);
    WhereCountsTrueCells(mask);
    forall k | 0 <= k < |r|
      ensures var row, col := r[k][1] - tr.ymin, r[k][0] - tr.xmin;
        0 <= row < |mask| && 0 <= col < |mask[row]| && mask[row][col]
    {
      assert cells[k] in cells;
    }
  }

  /** Every set cell of the mask yields its tile. */
  lemma TilesOfComplete(mask: seq<seq<bool>>, tr: TileRange, zoom: int)
    ensures forall row, col :: 0 <= row < |mask| && 0 <= col < |mask[row]| && mask[row][col] ==>
      exists k :: 0 <= k < |TilesOf(mask, tr, zoom)| && TilesOf(mask, tr, zoom)[k] == [col + tr.xmin, row + tr.ymin, zoom]
  {
    var r, cells := TilesOf(mask, tr, zoom), Where(mask);
    WhereMembers(mask);
    forall row, col | 0 <= row < |mask| && 0 <= col < |mask[row]| && mask[row][col]
      ensures exists k :: 0 <= k < |r| && r[k] == [col + tr.xmin, row + tr.ymin, zoom]
    {
      assert Cell(row, col) in cells;
      var k :| 0 <= k < |cells| && cells[k] == Cell(row, col);
      assert r[k] == [col + tr.xmin, row + tr.ymin, zoom];
    }
  }

  /** The tiles come in strictly increasing (y, x) order, so none is repeated. */
  lemma TilesOfOrdered(mask: seq<seq<bool>>, tr: TileRange, zoom: int)
    ensures forall i, j :: 0 <= i < j < |TilesOf(mask, tr, zoom)| ==>
      var a, b := TilesOf(mask, tr, zoom)[i], TilesOf(mask, tr, zoom)[j];
      a[1] < b[1] || (a[1] == b[1] && a[0] < b[0])
  {
    WhereSorted(mask);
  }

  /** With a mask of the range's shape every tile lies in the half-open range. */
  lemma TilesOfInRange(mask: seq<seq<bool>>, tr: TileRange, zoom: int)
    requires IsGrid(mask, tr.ymax - tr.ymin, tr.xmax - tr.xmin)
    ensures forall k :: 0 <= k < |TilesOf(mask, tr, zoom)| ==>
      tr.xmin <= TilesOf(mask, tr, zoom)[k][0] < tr.xmax && tr.ymin <= TilesOf(mask, tr, zoom)[k][1] < tr.ymax
  {
    TilesOfSound(mask, tr, zoom);
  }

  /**
   * The post-rasterize part of burn: np.where, fliplr, the in-place shift of
   * the two columns by the range origin, and the appended zoom column.
   */
  method EmitTiles(mask: seq<seq<bool>>, tr: TileRange, zoom: int) returns (tiles: seq<seq<int>>)
    ensures tiles == TilesOf(mask, tr, zoom)
  {
    var cells := Where(mask);
    var n := |cells|;
    var xys := new int[n, 2];
    for k := 0 to n
      invariant forall m :: 0 <= m < k ==> xys[m, 0] == cells[m].col && xys[m, 1] == cells[m].row
    {
      xys[k, 0], xys[k, 1] := cells[k].col, cells[k].row;
    }
    for k := 0 to n
      invariant forall m :: 0 <= m < k ==> xys[m, 0] == cells[m].col + tr.xmin
      invariant forall m :: k <= m < n ==> xys[m, 0] == cells[m].col
      invariant forall m :: 0 <= m < n ==> xys[m, 1] == cells[m].row
    {
      xys[k, 0] := xys[k, 0] + tr.xmin;
    }
    for k := 0 to n
      invariant forall m :: 0 <= m < n ==> xys[m, 0] == cells[m].col + tr.xmin
      invariant forall m :: 0 <= m < k ==> xys[m, 1] == cells[m].row + tr.ymin
      invariant forall m :: k <= m < n ==> xys[m, 1] == cells[m].row
    {
      xys[k, 1] := xys[k, 1] + tr.ymin;
    }
    tiles := [];
    for k := 0 to n
      invariant |tiles| == k
      invariant forall m :: 0 <= m < k ==> tiles[m] == [cells[m].col + tr.xmin, cells[m].row + tr.ymin, zoom]
    {
      tiles := tiles + [[xys[k, 0], xys[k, 1], zoom]];
    }
  }

  // ---------------------------------------------------------------- burn

  /** The (geometry, 255) pairs handed to rasterize, each geometry projected with proj. */
  function RasterInput(polys: seq<Feature>, proj: TileMatrixSet): (r: seq<(Geometry, int)>)
    requires forall i :: 0 <= i < |polys| ==> HasSingleGeometry(polys[i])
    ensures |r| == |polys|
    ensures forall i :: 0 <= i < |polys| ==>
      HasSingleGeometry(polys[i]) && r[i].1 == 255 && Some(r[i].0) == ProjectGeom(proj, polys[i].geometry.value)
  {
    seq(|polys|, i requires 0 <= i < |polys| =>
      assert HasSingleGeometry(polys[i]);
      (ProjectGeom(proj, polys[i].geometry.value).value, 255))
  }

  /** The range burn covers, once the extrema exist. */
  function BurnRange(polys: seq<Feature>, zoom: int, t: TileMatrixSet): TileRange
    requires FindExtrema(polys, t).Ok?
  {
    TileExtrema(FindExtrema(polys, t).value, zoom, t)
  }

  /** The mask rasterize returns for the range of the features. */
  function BurnMask(polys: seq<Feature>, zoom: int, t: TileMatrixSet, proj: TileMatrixSet, rasterize: Rasterizer): seq<seq<bool>>
    requires FindExtrema(polys, t).Ok?
    requires MakeTransform(BurnRange(polys, zoom, t), zoom, t).Ok?
  {
    var tr := BurnRange(polys, zoom, t);
    rasterize(RasterInput(polys, proj), tr.ymax - tr.ymin, tr.xmax - tr.xmin, MakeTransform(tr, zoom, t).value)
  }

  /**
   * What burn returns when the geometries are projected with proj and the
   * extrema, range, transform and bbox clamp are taken from t: the failure of
   * find_extrema, the ZeroDivisionError of make_transform, the refusal of a
   * negative out_shape, or the tiles of the rasterized mask.
   */
  function BurnResult(polys: seq<Feature>, zoom: int, t: TileMatrixSet, proj: TileMatrixSet, rasterize: Rasterizer)
    : Result<seq<seq<int>>>
  {
    if FindExtrema(polys, t).Err? then Err(FindExtrema(polys, t).error)
    else
    var tr := BurnRange(polys, zoom, t);
    var aff :- MakeTransform(tr, zoom, t);
    if tr.ymax - tr.ymin < 0 || tr.xmax - tr.xmin < 0 then Err(InvalidShape)
    else Ok(TilesOf(BurnMask(polys, zoom, t, proj, rasterize), tr, zoom))
  }

  /** burn succeeds exactly when the features have extrema and their tile range is non-empty both ways. */
  lemma BurnOutcome(polys: seq<Feature>, zoom: int, t: TileMatrixSet, proj: TileMatrixSet, rasterize: Rasterizer)
    ensures BurnResult(polys, zoom, t, proj, rasterize).Ok? <==>
      (FindExtrema(polys, t).Ok? &&
       BurnRange(polys, zoom, t).xmin < BurnRange(polys, zoom, t).xmax &&
       BurnRange(polys, zoom, t).ymin < BurnRange(polys, zoom, t).ymax)
    ensures BurnResult(polys, zoom, t, proj, rasterize).Err? ==>
      BurnResult(polys, zoom, t, proj, rasterize).error ==
        if FindExtrema(polys, t).Err? then FindExtrema(polys, t).error
        else if MakeTransform(BurnRange(polys, zoom, t), zoom, t).Err? then DegenerateRange
        else InvalidShape
  {
    if FindExtrema(polys, t).Ok? {
      var tr := BurnRange(polys, zoom, t);
      var mt := MakeTransform(tr, zoom, t);
      assert mt.Ok? <==> tr.xmax != tr.xmin && tr.ymax != tr.ymin;
      if mt.Ok? && tr.ymax - tr.ymin >= 0 && tr.xmax - tr.xmin >= 0 {
        assert BurnResult(polys, zoom, t, proj, rasterize) == Ok(TilesOf(BurnMask(polys, zoom, t, proj, rasterize), tr, zoom));
      }
    }
  }

  /**
   * The tiles burn returns are [x, y, zoom] with (x, y) in the range, one per
   * cell rasterize set, in (y, x) order without repeats, and every set cell
   * gives its tile.
   */
  lemma BurnTilesInRange(polys: seq<Feature>, zoom: int, t: TileMatrixSet, proj: TileMatrixSet, rasterize: Rasterizer)
    requires ReturnsRequestedShape(rasterize)
    requires BurnResult(polys, zoom, t, proj, rasterize).Ok?
    ensures var tr, tiles := BurnRange(polys, zoom, t), BurnResult(polys, zoom, t, proj, rasterize).value;
      var mask := BurnMask(polys, zoom, t, proj, rasterize);
      IsGrid(mask, tr.ymax - tr.ymin, tr.xmax - tr.xmin) &&
      tiles == TilesOf(mask, tr, zoom) &&
      |tiles| == |TrueCells(mask)| &&
      forall k :: 0 <= k < |tiles| ==>
        |tiles[k]| == 3 && tiles[k][2] == zoom &&
        tr.xmin <= tiles[k][0] < tr.xmax && tr.ymin <= tiles[k][1] < tr.ymax
  {
    var tr := BurnRange(polys, zoom, t);
    var mask := BurnMask(polys, zoom, t, proj, rasterize);
    assert IsGrid(mask, tr.ymax - tr.ymin, tr.xmax - tr.xmin);
    TilesOfSound(mask, tr, zoom);
    TilesOfInRange(mask, tr, zoom);
  }

  /**
   * burn with the geometries projected by proj and the range, transform and
   * bbox clamp taken from t.
   */
  method BurnWith(polys: seq<Feature>, zoom: int, t: TileMatrixSet, proj: TileMatrixSet, rasterize: Rasterizer)
    returns (r: Result<seq<seq<int>>>)
    ensures r == BurnResult(polys, zoom, t, proj, rasterize)
  {
    var bounds := FindExtrema(polys, t);
    if bounds.Err? {
      return Err(bounds.error);
    }
    var tilerange := BurnRange(polys, zoom, t);
    var afftrans := MakeTransform(tilerange, zoom, t);
    if afftrans.Err? {
      return Err(afftrans.error);
    }
    var rows, cols := tilerange.ymax - tilerange.ymin, tilerange.xmax - tilerange.xmin;
    if rows < 0 || cols < 0 {
      // rasterize refuses a negative out_shape
      return Err(InvalidShape);
    }
    var mask := BurnMask(polys, zoom, t, proj, rasterize);
    var tiles := EmitTiles(mask, tilerange, zoom);
    return Ok(tiles);
  }

  /** burn as written: the geometries are projected with the module default scheme, not with t. */
  method BurnAsWritten(polys: seq<Feature>, zoom: int, t: TileMatrixSet, defaultTms: TileMatrixSet, rasterize: Rasterizer)
    returns (r: Result<seq<seq<int>>>)
    ensures r == BurnResult(polys, zoom, t, defaultTms, rasterize)
  {
    r := BurnWith(polys, zoom, t, defaultTms, rasterize);
  }

  /** burn: the tiles at zoom that rasterize reports as touched by the features projected with t. */
  method Burn(polys: seq<Feature>, zoom: int, t: TileMatrixSet, rasterize: Rasterizer)
    returns (r: Result<seq<seq<int>>>)
    ensures r == BurnResult(polys, zoom, t, t, rasterize)
  {
    r := BurnWith(polys, zoom, t, t, rasterize);
  }

  /** With t, the geometries handed to rasterize are in the projection the transform uses. */
  lemma RasterInputInGridProjection(polys: seq<Feature>, t: TileMatrixSet, i: int)
    requires forall k :: 0 <= k < |polys| ==> HasSingleGeometry(polys[k])
    requires 0 <= i < |polys| && HasSingleGeometry(polys[i])
    ensures Vertices(RasterInput(polys, t)[i].0) == Projected(t, Vertices(polys[i].geometry.value))
  {
  }

  /**
   * With a separate default scheme, a feature with one position that the two
   * schemes project differently reaches rasterize in the wrong projection.
   */
  lemma DefaultProjectionDiffers(polys: seq<Feature>, t: TileMatrixSet, defaultTms: TileMatrixSet, i: int, k: int)
    requires forall m :: 0 <= m < |polys| ==> HasSingleGeometry(polys[m])
    requires 0 <= i < |polys| && HasSingleGeometry(polys[i])
    requires 0 <= k < |Vertices(polys[i].geometry.value)|
    requires defaultTms.xy(Vertices(polys[i].geometry.value)[k]) != t.xy(Vertices(polys[i].geometry.value)[k])
    ensures Vertices(RasterInput(polys, defaultTms)[i].0) != Projected(t, Vertices(polys[i].geometry.value))
  {
    var vs := Vertices(polys[i].geometry.value);
    assert Vertices(RasterInput(polys, defaultTms)[i].0) == Projected(defaultTms, vs);
    assert Projected(defaultTms, vs)[k] != Projected(t, vs)[k];
  }
}
